/**
 * Sharing does not blow the code up: outside cheap reloads, each instruction is emitted at most
 * once. A value that is not spilled has one user, so it is emitted only when that user is; a
 * spilled value is emitted once and loaded afterwards.
 */
module StackifySize {
  import opened Prelude
  import opened Bytecode
  import opened Vm
  import opened Ir
  import opened IrDce
  import opened CodegenSpec
  import opened StackPlan
  import opened Stackify

  /** The spills of the plan, for a function whose ids are unique. */
  ghost predicate Planned(c: Ctx) {
    AllLocalSsa(c.f) && UniqueIds(c.f) && forall id :: id in c.spill <==> Spilled(c.f, id)
  }

  lemma PlannedBlock(c: Ctx, b: nat)
    requires Planned(c) && b < |c.f|
    ensures AllLocalSsa(c.f) && LocalSsa(c.f[b].instrs)
  {
  }

  lemma LocalBlock(c: Ctx, b: nat)
    requires AllLocalSsa(c.f) && b < |c.f|
    ensures LocalSsa(c.f[b].instrs)
  {
  }

  // ----- who uses a value -----

  /** Operands at position `u` of a block; the terminator comes after the last instruction. */
  function OperandsAt(bb: BasicBlock, u: nat): seq<ValueRef> {
    if u < |bb.instrs| then Operands(bb.instrs[u].1) else TermOperands(bb.term)
  }

  function Count(vs: seq<ValueRef>, v: ValueRef): nat { multiset(vs)[v] }

  lemma CountAppend(a: seq<ValueRef>, b: seq<ValueRef>, v: ValueRef)
    ensures Count(a + b, v) == Count(a, v) + Count(b, v)
  {
  }

  lemma CountIn(vs: seq<ValueRef>, v: ValueRef)
    requires v in vs
    ensures Count(vs, v) >= 1
  {
    assert v in multiset(vs);
  }

  lemma {:induction false} CountOne(instrs: Instrs, n: nat, p: nat, v: ValueRef)
    requires p < n <= |instrs|
    ensures Count(InstrRefs(instrs, n), v) >= Count(Operands(instrs[p].1), v)
  {
    hide Operands;
    CountAppend(InstrRefs(instrs, n - 1), Operands(instrs[n - 1].1), v);
    if p < n - 1 {
      CountOne(instrs, n - 1, p, v);
    }
  }

  lemma {:induction false} CountTwo(instrs: Instrs, n: nat, p: nat, q: nat, v: ValueRef)
    requires p < q < n <= |instrs|
    ensures Count(InstrRefs(instrs, n), v) >= Count(Operands(instrs[p].1), v) + Count(Operands(instrs[q].1), v)
  {
    hide Operands, Count;
    CountAppend(InstrRefs(instrs, n - 1), Operands(instrs[n - 1].1), v);
    if q < n - 1 {
      CountTwo(instrs, n - 1, p, q, v);
    } else {
      CountOne(instrs, n - 1, p, v);
    }
  }

  lemma {:induction false} CountBlock(f: Blocks, n: nat, b: nat, v: ValueRef)
    requires b < n <= |f|
    ensures Count(AllRefs(f, n), v) >= Count(BlockRefs(f[b]), v)
  {
    hide BlockRefs;
    CountAppend(AllRefs(f, n - 1), BlockRefs(f[n - 1]), v);
    if b < n - 1 {
      CountBlock(f, n - 1, b, v);
    }
  }

  lemma OneUser(f: Blocks, b: nat, p: nat, id: nat)
    requires b < |f| && p <= |f[b].instrs|
    ensures Uses(f, id) >= Count(OperandsAt(f[b], p), Value(id))
  {
    hide Operands, TermOperands, AllRefs, InstrRefs;
    var instrs := f[b].instrs;
    CountBlock(f, |f|, b, Value(id));
    CountAppend(InstrRefs(instrs, |instrs|), TermOperands(f[b].term), Value(id));
    if p < |instrs| {
      CountOne(instrs, |instrs|, p, Value(id));
    }
  }

  lemma TwoUsers(f: Blocks, b: nat, p: nat, q: nat, id: nat)
    requires b < |f| && p < q <= |f[b].instrs|
    ensures Uses(f, id) >= Count(OperandsAt(f[b], p), Value(id)) + Count(OperandsAt(f[b], q), Value(id))
  {
    hide Operands, TermOperands, AllRefs, InstrRefs;
    var instrs := f[b].instrs;
    CountBlock(f, |f|, b, Value(id));
    CountAppend(InstrRefs(instrs, |instrs|), TermOperands(f[b].term), Value(id));
    if q < |instrs| {
      CountTwo(instrs, |instrs|, p, q, Value(id));
    } else {
      CountOne(instrs, |instrs|, p, Value(id));
    }
  }

  /** Neither spilled nor pushed again for free: such a value is computed where it is used. */
  predicate Inlined(c: Ctx, b: nat, q: nat)
    requires b < |c.f|
  {
    q < |c.f[b].instrs| &&
    var (id, i) := c.f[b].instrs[q];
    id !in c.spill && !Reloadable(i) && !HasSideEffects(i)
  }

  predicate UsedAt(c: Ctx, b: nat, q: nat, u: nat)
    requires b < |c.f| && q < |c.f[b].instrs|
  {
    u <= |c.f[b].instrs| && Value(c.f[b].instrs[q].0) in OperandsAt(c.f[b], u)
  }

  /** Used once, or twice by one binary instruction of its own block. */
  lemma {:induction false} InlinedUses(c: Ctx, b: nat, q: nat) returns (squared: Option<nat>)
    requires Planned(c) && b < |c.f| && Inlined(c, b, q)
    ensures match squared
            case None => Uses(c.f, c.f[b].instrs[q].0) <= 1
            case Some(p) =>
              Uses(c.f, c.f[b].instrs[q].0) == 2 && p < |c.f[b].instrs| && SquaredBy(c.f[b].instrs[p].1, c.f[b].instrs[q].0)
  {
    hide Uses, Cross, SquaredBy, AllLocalSsa, LocalSsa, DefsOf;
    var (id, i) := c.f[b].instrs[q];
    TheDefinition(c.f, b, q);
    assert !SpilledAs(c.f, id, i);
    if Uses(c.f, id) <= 1 {
      return None;
    }
    assert Squared(c.f, id);
    var b2 :| 0 <= b2 < |c.f| && SquaredIn(c.f[b2].instrs, id);
    var p :| 0 <= p < |c.f[b2].instrs| && SquaredBy(c.f[b2].instrs[p].1, id);
    SquareHere(c, b, q, b2, p);
    return Some(p);
  }

  lemma SquareHere(c: Ctx, b: nat, q: nat, b2: nat, p: nat)
    requires b < |c.f| && q < |c.f[b].instrs| && b2 < |c.f| && p < |c.f[b2].instrs|
    requires SquaredBy(c.f[b2].instrs[p].1, c.f[b].instrs[q].0) && !Cross(c.f, c.f[b].instrs[q].0)
    ensures b2 == b
  {
    hide InstrRefs, TermOperands;
    var id := c.f[b].instrs[q].0;
    assert Value(id) in Operands(c.f[b2].instrs[p].1);
    CountIn(Operands(c.f[b2].instrs[p].1), Value(id));
    CountOne(c.f[b2].instrs, |c.f[b2].instrs|, p, Value(id));
    assert Value(id) in InstrRefs(c.f[b2].instrs, |c.f[b2].instrs|);
    assert UsedInBlock(c.f, b2, id) && DefinedInBlock(c.f, b, id);
  }

  lemma SquareCount(i: Instr, id: nat)
    requires SquaredBy(i, id)
    ensures Count(Operands(i), Value(id)) == 2 && Pushed(i) == [Value(id)]
  {
  }

  /** An inlined value has one user in its block, which pushes it once. */
  lemma {:induction false} OnlyUser(c: Ctx, b: nat, q: nat, u: nat, w: nat)
    requires Planned(c) && b < |c.f| && q < |c.f[b].instrs| && Inlined(c, b, q) && UsedAt(c, b, q, u) && UsedAt(c, b, q, w)
    ensures u == w
  {
    hide Planned, Inlined, Uses, Operands, TermOperands, SquaredBy;
    var id := c.f[b].instrs[q].0;
    var squared := InlinedUses(c, b, q);
    CountIn(OperandsAt(c.f[b], u), Value(id));
    CountIn(OperandsAt(c.f[b], w), Value(id));
    if u < w { TwoUsers(c.f, b, u, w, id); }
    if w < u { TwoUsers(c.f, b, w, u, id); }
    if squared.Some? {
      var p := squared.value;
      SquareCount(c.f[b].instrs[p].1, id);
      if u < p { TwoUsers(c.f, b, u, p, id); }
      if p < u { TwoUsers(c.f, b, p, u, id); }
      if w < p { TwoUsers(c.f, b, w, p, id); }
      if p < w { TwoUsers(c.f, b, p, w, id); }
    }
  }

  lemma PushedCounts(i: Instr, v: ValueRef)
    ensures Count(Pushed(i), v) <= Count(Operands(i), v)
  {
    match i
    case ArrayPack(es) => ReverseCounts(es, v);
    case _ =>
  }

  lemma {:induction false} ReverseCounts(vs: seq<ValueRef>, v: ValueRef)
    ensures Count(Reverse(vs), v) == Count(vs, v)
  {
    if vs != [] {
      var rest := vs[1..];
      ReverseCounts(rest, v);
      assert vs == [vs[0]] + rest;
      assert Reverse(vs) == Reverse(rest) + [vs[0]];
    }
  }

  /** Whatever is pushed at a position contains an inlined value at most once. */
  lemma {:induction false} PushedOnce(c: Ctx, b: nat, q: nat, p: nat)
    requires Planned(c) && b < |c.f| && q < |c.f[b].instrs| && Inlined(c, b, q) && p < |c.f[b].instrs|
    ensures Count(Pushed(c.f[b].instrs[p].1), Value(c.f[b].instrs[q].0)) <= 1
    ensures !c.f[b].instrs[p].1.Binary? ==> Count(Operands(c.f[b].instrs[p].1), Value(c.f[b].instrs[q].0)) <= 1
  {
    hide Planned, Inlined, Uses, Operands, Pushed, SquaredBy;
    var (id, i) := (c.f[b].instrs[q].0, c.f[b].instrs[p].1);
    var squared := InlinedUses(c, b, q);
    OneUser(c.f, b, p, id);
    PushedCounts(i, Value(id));
    if squared.Some? {
      var s := squared.value;
      SquareCount(c.f[b].instrs[s].1, id);
      SquareIsBinary(c.f[b].instrs[s].1, id);
      if p < s { TwoUsers(c.f, b, p, s, id); }
      if s < p { TwoUsers(c.f, b, s, p, id); }
    }
  }

  lemma SquareIsBinary(i: Instr, id: nat)
    requires SquaredBy(i, id)
    ensures i.Binary?
  {
  }

  // ----- what emission costs -----

  /** Instructions charged to one definition: its own, its store, and one reload per operand. */
  function Own(i: Instr): nat { |Operands(i)| + 6 }

  /** The charge of the positions below `n` that are in `done`. */
  function Cost(instrs: Instrs, done: set<nat>, n: nat): nat
    requires n <= |instrs|
  {
    if n == 0 then 0 else Cost(instrs, done, n - 1) + if n - 1 in done then Own(instrs[n - 1].1) else 0
  }

  lemma {:induction false} CostUnion(instrs: Instrs, a: set<nat>, b: set<nat>, n: nat)
    requires n <= |instrs| && a !! b
    ensures Cost(instrs, a + b, n) == Cost(instrs, a, n) + Cost(instrs, b, n)
  {
    hide Own;
    if n > 0 {
      CostUnion(instrs, a, b, n - 1);
    }
  }

  lemma {:induction false} CostOne(instrs: Instrs, p: nat, n: nat)
    requires p < |instrs| && n <= |instrs|
    ensures Cost(instrs, {p}, n) == if p < n then Own(instrs[p].1) else 0
  {
    hide Own;
    if n > 0 {
      CostOne(instrs, p, n - 1);
    }
  }

  lemma {:induction false} CostNone(instrs: Instrs, n: nat)
    requires n <= |instrs|
    ensures Cost(instrs, {}, n) == 0
  {
    if n > 0 {
      CostNone(instrs, n - 1);
    }
  }

  lemma {:induction false} CostGrows(instrs: Instrs, a: set<nat>, b: set<nat>, n: nat)
    requires n <= |instrs| && a <= b
    ensures Cost(instrs, a, n) <= Cost(instrs, b, n)
  {
    hide Own;
    if n > 0 {
      CostGrows(instrs, a, b, n - 1);
    }
  }

  /** The charge of every instruction of a block. */
  function BlockCost(instrs: Instrs, n: nat): nat
    requires n <= |instrs|
  {
    if n == 0 then 0 else BlockCost(instrs, n - 1) + Own(instrs[n - 1].1)
  }

  lemma {:induction false} CostAll(instrs: Instrs, done: set<nat>, n: nat)
    requires n <= |instrs|
    ensures Cost(instrs, done, n) <= BlockCost(instrs, n)
  {
    hide Own;
    if n > 0 {
      CostAll(instrs, done, n - 1);
    }
  }

  // ----- what has been emitted -----

  /** Position `q` is done: stored if it is spilled, and inlined only into a user that is done or still at work. */
  ghost predicate DoneAt(c: Ctx, b: nat, done: set<nat>, emitted: set<nat>, bound: nat, q: nat)
    requires b < |c.f|
  {
    && q < |c.f[b].instrs|
    && (c.f[b].instrs[q].0 in c.spill && !HasSideEffects(c.f[b].instrs[q].1) ==> c.f[b].instrs[q].0 in emitted)
    && (Inlined(c, b, q) ==> exists u: nat :: UsedAt(c, b, q, u) && (u in done || u >= bound))
  }

  ghost predicate Done(c: Ctx, b: nat, done: set<nat>, emitted: set<nat>, bound: nat)
    requires b < |c.f|
  {
    forall q :: q in done ==> DoneAt(c, b, done, emitted, bound, q)
  }

  /** `added` was emitted below `bound` for `owner`, none of it before. */
  ghost predicate Added(c: Ctx, b: nat, done: set<nat>, added: set<nat>, emitted: set<nat>, bound: nat, owner: nat)
    requires b < |c.f|
  {
    && added !! done
    && forall q :: q in added ==>
        && q < |c.f[b].instrs| && q < bound
        && (c.f[b].instrs[q].0 in c.spill && !HasSideEffects(c.f[b].instrs[q].1) ==> c.f[b].instrs[q].0 in emitted)
        && (Inlined(c, b, q) ==> exists u: nat :: UsedAt(c, b, q, u) && (u in added || u == owner))
  }

  lemma AddDone(c: Ctx, b: nat, done: set<nat>, added: set<nat>, before: set<nat>, emitted: set<nat>, bound: nat, owner: nat)
    requires b < |c.f| && Done(c, b, done, before, bound) && before <= emitted && owner >= bound
    requires Added(c, b, done, added, emitted, bound, owner)
    ensures Done(c, b, done + added, emitted, bound)
  {
    hide UsedAt, Inlined;
    forall q | q in done + added ensures DoneAt(c, b, done + added, emitted, bound, q) {
      if q in done {
        assert DoneAt(c, b, done, before, bound, q);
      }
    }
  }

  lemma DoneBelow(c: Ctx, b: nat, done: set<nat>, emitted: set<nat>, bound: nat, lower: nat)
    requires b < |c.f| && Done(c, b, done, emitted, bound) && lower <= bound
    ensures Done(c, b, done, emitted, lower)
  {
    hide UsedAt, Inlined;
    forall q | q in done ensures DoneAt(c, b, done, emitted, lower, q) {
      assert DoneAt(c, b, done, emitted, bound, q);
    }
  }

  /** What is about to be pushed for `owner` is used there, once, and what of it is inlined is not yet emitted. */
  ghost predicate Ready(c: Ctx, b: nat, done: set<nat>, vs: seq<ValueRef>, owner: nat)
    requires b < |c.f|
  {
    && owner <= |c.f[b].instrs|
    && (forall v :: v in vs ==> v in OperandsAt(c.f[b], owner))
    && forall q :: 0 <= q < |c.f[b].instrs| && Inlined(c, b, q) ==>
        var v := Value(c.f[b].instrs[q].0);
        Count(vs, v) <= 1 && (v in vs ==> q !in done)
  }

  /** A user that has not begun has none of its inlined operands emitted. */
  lemma {:induction false} NotYet(c: Ctx, b: nat, done: set<nat>, emitted: set<nat>, bound: nat, owner: nat, q: nat)
    requires Planned(c) && b < |c.f| && Done(c, b, done, emitted, bound) && Inlined(c, b, q)
    requires UsedAt(c, b, q, owner) && owner !in done && owner < bound
    ensures q !in done
  {
    hide Planned, Inlined, UsedAt;
    if q in done {
      assert DoneAt(c, b, done, emitted, bound, q);
      var u: nat :| UsedAt(c, b, q, u) && (u in done || u >= bound);
      OnlyUser(c, b, q, u, owner);
    }
  }

  lemma {:induction false} ReadyPushed(c: Ctx, b: nat, done: set<nat>, emitted: set<nat>, p: nat)
    requires Planned(c) && b < |c.f| && p < |c.f[b].instrs| && p !in done && Done(c, b, done, emitted, p + 1)
    ensures Ready(c, b, done, Pushed(c.f[b].instrs[p].1), p)
  {
    hide Planned, Inlined, Pushed, Operands, Done;
    var i := c.f[b].instrs[p].1;
    PushedAreOperands(i);
    forall q | 0 <= q < |c.f[b].instrs| && Inlined(c, b, q)
      ensures Count(Pushed(i), Value(c.f[b].instrs[q].0)) <= 1
      ensures Value(c.f[b].instrs[q].0) in Pushed(i) ==> q !in done
    {
      PushedOnce(c, b, q, p);
      if Value(c.f[b].instrs[q].0) in Pushed(i) {
        assert UsedAt(c, b, q, p);
        NotYet(c, b, done, emitted, p + 1, p, q);
      }
    }
  }

  /** After the first operand, the others are still ready. */
  lemma {:induction false} ReadyRest(c: Ctx, b: nat, done: set<nat>, added: set<nat>, emitted: set<nat>, vs: seq<ValueRef>, bound: nat, owner: nat)
    requires Planned(c) && b < |c.f| && vs != [] && Ready(c, b, done, vs, owner) && owner >= bound
    requires Added(c, b, done, added, emitted, bound, owner)
    requires forall q :: q in added && Inlined(c, b, q) && UsedAt(c, b, q, owner) ==> Value(c.f[b].instrs[q].0) == vs[0]
    ensures Ready(c, b, done + added, vs[1..], owner)
  {
    hide Planned, Inlined;
    assert vs == [vs[0]] + vs[1..];
    forall q | 0 <= q < |c.f[b].instrs| && Inlined(c, b, q)
      ensures Count(vs[1..], Value(c.f[b].instrs[q].0)) <= 1
      ensures Value(c.f[b].instrs[q].0) in vs[1..] ==> q !in done + added
    {
      var v := Value(c.f[b].instrs[q].0);
      CountAppend([vs[0]], vs[1..], v);
      CountIn([vs[0]], vs[0]);
      if v in vs[1..] {
        CountIn(vs[1..], v);
        assert v in vs;
      }
    }
  }

  // ----- each position is emitted once -----

  /** The code of an emission is paid for by the positions it adds, and `extra` reloads. */
  ghost predicate Paid(c: Ctx, b: nat, code: Code, added: set<nat>, extra: nat)
    requires b < |c.f|
  {
    |code| <= Cost(c.f[b].instrs, added, |c.f[b].instrs|) + extra
  }

  lemma TailIsShort(c: Ctx, i: Instr)
    requires Tail(c, i).Ok?
    ensures |Tail(c, i).value| <= 3 && !HasSideEffects(i)
    ensures i.Const? || Formal(i) ==> |Tail(c, i).value| == 1
  {
  }

  lemma {:induction false} RefSize(c: Ctx, b: nat, emitted: set<nat>, v: ValueRef, done: set<nat>, bound: nat, owner: nat)
    returns (added: set<nat>)
    requires Planned(c) && b < |c.f| && EmitRef(c, b, emitted, v).Ok?
    requires Done(c, b, done, emitted, bound) && Rank(c, b, v) <= bound <= owner && Ready(c, b, done, [v], owner)
    ensures emitted <= EmitRef(c, b, emitted, v).value.1
    ensures Added(c, b, done, added, EmitRef(c, b, emitted, v).value.1, bound, owner)
    ensures Paid(c, b, EmitRef(c, b, emitted, v).value.0, added, 1)
    ensures forall q :: q in added && Inlined(c, b, q) && UsedAt(c, b, q, owner) ==> Value(c.f[b].instrs[q].0) == v
    decreases Rank(c, b, v), 3, 0
  {
    hide EmitId, Done, Ready, Planned;
    added := {};
    match v
    case Param(k) => NothingAdded(c, b, done, emitted, bound, owner);
    case Value(id) => added := IdSize(c, b, emitted, id, done, bound, owner);
  }

  lemma NothingAdded(c: Ctx, b: nat, done: set<nat>, emitted: set<nat>, bound: nat, owner: nat)
    requires b < |c.f|
    ensures Added(c, b, done, {}, emitted, bound, owner) && Cost(c.f[b].instrs, {}, |c.f[b].instrs|) == 0
  {
    CostNone(c.f[b].instrs, |c.f[b].instrs|);
  }

  lemma {:induction false} IdSize(c: Ctx, b: nat, emitted: set<nat>, id: nat, done: set<nat>, bound: nat, owner: nat)
    returns (added: set<nat>)
    requires Planned(c) && b < |c.f| && EmitId(c, b, emitted, id).Ok?
    requires Done(c, b, done, emitted, bound) && Rank(c, b, Value(id)) <= bound <= owner
    requires Ready(c, b, done, [Value(id)], owner)
    ensures emitted <= EmitId(c, b, emitted, id).value.1
    ensures Added(c, b, done, added, EmitId(c, b, emitted, id).value.1, bound, owner)
    ensures Paid(c, b, EmitId(c, b, emitted, id).value.0, added, 1)
    ensures forall q :: q in added && Inlined(c, b, q) && UsedAt(c, b, q, owner) ==> Value(c.f[b].instrs[q].0) == Value(id)
    decreases Rank(c, b, Value(id)), 2, 0
  {
    hide EmitPure, Done, Ready, Planned, LocalPos, DefsOf;
    PlannedBlock(c, b);
    var here := Here(c, b, id);
    var r := EmitId(c, b, emitted, id).value;
    NothingAdded(c, b, done, r.1, bound, owner);
    added := {};
    if here.None? || Reloads(c, b, emitted, id, here.value) {
      ReloadSize(c, b, emitted, id);
    } else {
      added := PositionSize(c, b, emitted, here.value, done, bound, owner);
      PositionIsId(c, b, emitted, id, here.value);
    }
  }

  /** The value is loaded, or costs one instruction to push again. */
  predicate Reloads(c: Ctx, b: nat, emitted: set<nat>, id: nat, p: nat)
    requires b < |c.f| && p < |c.f[b].instrs|
  {
    if id in c.spill then id in emitted else Reloadable(c.f[b].instrs[p].1)
  }

  lemma ReloadSize(c: Ctx, b: nat, emitted: set<nat>, id: nat)
    requires Planned(c) && b < |c.f| && EmitId(c, b, emitted, id).Ok?
    requires var here := Here(c, b, id); here.None? || Reloads(c, b, emitted, id, here.value)
    ensures var r := EmitId(c, b, emitted, id).value; |r.0| == 1 && emitted <= r.1
  {
    hide EmitPure, LocalPos, DefsOf, CheapLiteral, AllLocalSsa, UniqueIds, Spilled;
    PlannedBlock(c, b);
    var here := Here(c, b, id);
    if here.Some? && id !in c.spill {
      var i := c.f[b].instrs[here.value].1;
      NothingPushed(i);
      OperandsBelow(c, b, here.value);
      SingleSize(c, b, emitted, i, here.value + 1);
    } else if here.None? && id !in c.spill {
      var i := DefsOf(c.f, |c.f|)[id];
      NothingPushed(i);
      SingleSize(c, b, emitted, i, 0);
    }
  }

  lemma SingleSize(c: Ctx, b: nat, emitted: set<nat>, i: Instr, bound: nat)
    requires b < |c.f| && AllLocalSsa(c.f) && (i.Const? || Formal(i)) && Pushed(i) == []
    requires EmitPure(c, b, emitted, i, bound).Ok?
    ensures |EmitPure(c, b, emitted, i, bound).value.0| == 1 && EmitPure(c, b, emitted, i, bound).value.1 == emitted
  {
    hide Tail, Pushed, AllLocalSsa;
    TailIsShort(c, i);
    assert EmitRefs(c, b, emitted, Pushed(i), bound) == Ok(([], emitted));
  }

  /** The first use of a spilled value, or the use of an inlined one: the code of a position. */
  function PositionCode(c: Ctx, b: nat, emitted: set<nat>, p: nat): Emitted
    requires b < |c.f| && AllLocalSsa(c.f) && p < |c.f[b].instrs|
  {
    var (id, i) := c.f[b].instrs[p];
    OperandsBelow(c, b, p);
    var r :- EmitPure(c, b, emitted, i, p + 1);
    if id !in c.spill then Ok(r)
    else if id !in c.slot then Err(Unsupported)
    else
      var store :- StoreLocal(c.slot[id]);
      Ok((r.0 + ([Op(DUP)] + store), r.1 + {id}))
  }

  lemma PositionIsId(c: Ctx, b: nat, emitted: set<nat>, id: nat, p: nat)
    requires b < |c.f| && AllLocalSsa(c.f) && Here(c, b, id) == Some(p) && EmitId(c, b, emitted, id).Ok?
    requires !Reloads(c, b, emitted, id, p)
    ensures EmitId(c, b, emitted, id) == PositionCode(c, b, emitted, p) && c.f[b].instrs[p].0 == id
  {
    hide EmitPure, AllLocalSsa, LocalPos, Reloadable;
  }

  lemma {:induction false} PositionSize(c: Ctx, b: nat, emitted: set<nat>, p: nat, done: set<nat>, bound: nat, owner: nat)
    returns (added: set<nat>)
    requires Planned(c) && b < |c.f| && p < |c.f[b].instrs| && PositionCode(c, b, emitted, p).Ok?
    requires Here(c, b, c.f[b].instrs[p].0) == Some(p) && !Reloads(c, b, emitted, c.f[b].instrs[p].0, p)
    requires Done(c, b, done, emitted, bound) && p < bound <= owner
    requires Ready(c, b, done, [Value(c.f[b].instrs[p].0)], owner)
    ensures emitted <= PositionCode(c, b, emitted, p).value.1
    ensures Added(c, b, done, added, PositionCode(c, b, emitted, p).value.1, bound, owner)
    ensures Paid(c, b, PositionCode(c, b, emitted, p).value.0, added, 0)
    ensures forall q :: q in added && Inlined(c, b, q) && UsedAt(c, b, q, owner) ==> q == p
    decreases p + 1, 1, 1
  {
    hide EmitPure, Planned, Tail, LocalPos, Reloadable, LocalSsa, AllLocalSsa, Operands, Pushed;
    PlannedBlock(c, b);
    var (id, i) := c.f[b].instrs[p];
    OperandsBelow(c, b, p);
    PureIsPure(c, b, emitted, p);
    assert Value(id) in [Value(id)];
    FirstTime(c, b, emitted, p, done, bound, owner);
    DoneBelow(c, b, done, emitted, bound, p + 1);
    var below := PureSize(c, b, emitted, p, done);
    var r := EmitPure(c, b, emitted, i, p + 1).value;
    added := below + {p};
    PayPosition(c, b, below, p, r.0);
    hide Done, Ready;
    CloseAdded(c, b, done, below, r.1, PositionCode(c, b, emitted, p).value.1, p, bound, owner);
    forall q | q in added && Inlined(c, b, q) && UsedAt(c, b, q, owner) ensures q == p {
      if q != p {
        var u: nat :| UsedAt(c, b, q, u) && (u in below || u == p);
        OnlyUser(c, b, q, u, owner);
      }
    }
  }

  lemma PureIsPure(c: Ctx, b: nat, emitted: set<nat>, p: nat)
    requires b < |c.f| && AllLocalSsa(c.f) && p < |c.f[b].instrs| && PositionCode(c, b, emitted, p).Ok?
    ensures !HasSideEffects(c.f[b].instrs[p].1)
  {
    hide Tail, AllLocalSsa, EmitRefs;
    LocalBlock(c, b);
    OperandsBelow(c, b, p);
    TailIsShort(c, c.f[b].instrs[p].1);
  }

  lemma FirstTime(c: Ctx, b: nat, emitted: set<nat>, p: nat, done: set<nat>, bound: nat, owner: nat)
    requires b < |c.f| && p < |c.f[b].instrs| && !HasSideEffects(c.f[b].instrs[p].1)
    requires !Reloads(c, b, emitted, c.f[b].instrs[p].0, p) && Done(c, b, done, emitted, bound)
    requires Ready(c, b, done, [Value(c.f[b].instrs[p].0)], owner) && Value(c.f[b].instrs[p].0) in [Value(c.f[b].instrs[p].0)]
    ensures p !in done && (Inlined(c, b, p) ==> UsedAt(c, b, p, owner))
  {
    hide Reloadable;
    if c.f[b].instrs[p].0 in c.spill {
      assert p in done ==> DoneAt(c, b, done, emitted, bound, p);
    } else {
      assert Inlined(c, b, p);
    }
  }

  lemma PayPosition(c: Ctx, b: nat, below: set<nat>, p: nat, code: Code)
    requires b < |c.f| && p < |c.f[b].instrs| && p !in below
    requires Paid(c, b, code, below, |Operands(c.f[b].instrs[p].1)| + 3)
    ensures forall more: Code :: |more| <= 3 ==> Paid(c, b, code + more, below + {p}, 0)
  {
    var instrs := c.f[b].instrs;
    CostUnion(instrs, below, {p}, |instrs|);
    CostOne(instrs, p, |instrs|);
  }

  lemma CloseAdded(c: Ctx, b: nat, done: set<nat>, below: set<nat>, before: set<nat>, emitted: set<nat>, p: nat, bound: nat, owner: nat)
    requires b < |c.f| && p < |c.f[b].instrs| && p !in done && p < bound && before <= emitted
    requires Added(c, b, done, below, before, p, p)
    requires c.f[b].instrs[p].0 in c.spill && !HasSideEffects(c.f[b].instrs[p].1) ==> c.f[b].instrs[p].0 in emitted
    requires Inlined(c, b, p) ==> UsedAt(c, b, p, owner)
    ensures Added(c, b, done, below + {p}, emitted, bound, owner)
  {
    hide UsedAt, Inlined;
    forall q | q in below + {p} && Inlined(c, b, q)
      ensures exists u: nat :: UsedAt(c, b, q, u) && (u in below + {p} || u == owner)
    {
      if q in below {
        var u: nat :| UsedAt(c, b, q, u) && (u in below || u == p);
      }
    }
  }

  /** The operands and the operation of a position that has not been emitted. */
  lemma {:induction false} PureSize(c: Ctx, b: nat, emitted: set<nat>, p: nat, done: set<nat>) returns (below: set<nat>)
    requires Planned(c) && b < |c.f| && p < |c.f[b].instrs| && p !in done && Done(c, b, done, emitted, p + 1)
    requires Below(c, b, Pushed(c.f[b].instrs[p].1), p + 1) && EmitPure(c, b, emitted, c.f[b].instrs[p].1, p + 1).Ok?
    ensures var r := EmitPure(c, b, emitted, c.f[b].instrs[p].1, p + 1).value;
            && emitted <= r.1 && Added(c, b, done, below, r.1, p, p)
            && Paid(c, b, r.0, below, |Operands(c.f[b].instrs[p].1)| + 3)
    decreases p + 1, 1, 0
  {
    hide EmitRefs, Done, Ready, Planned, Tail, Pushed;
    var i := c.f[b].instrs[p].1;
    ReadyPushed(c, b, done, emitted, p);
    DoneBelow(c, b, done, emitted, p + 1, p);
    TailIsShort(c, i);
    PushedLength(i);
    below := RefsSize(c, b, emitted, Pushed(i), p + 1, done, p, p);
  }

  lemma PushedLength(i: Instr)
    ensures |Pushed(i)| <= |Operands(i)|
  {
  }

  lemma {:induction false} RefsSize(c: Ctx, b: nat, emitted: set<nat>, vs: seq<ValueRef>, rank: nat, done: set<nat>, bound: nat, owner: nat)
    returns (added: set<nat>)
    requires Planned(c) && b < |c.f| && Below(c, b, vs, rank) && EmitRefs(c, b, emitted, vs, rank).Ok?
    requires Done(c, b, done, emitted, bound) && rank <= bound + 1 && bound <= owner && Ready(c, b, done, vs, owner)
    ensures emitted <= EmitRefs(c, b, emitted, vs, rank).value.1
    ensures Added(c, b, done, added, EmitRefs(c, b, emitted, vs, rank).value.1, bound, owner)
    ensures Paid(c, b, EmitRefs(c, b, emitted, vs, rank).value.0, added, |vs|)
    decreases rank, 0, |vs|
  {
    hide EmitRef, Planned, Done, Rank;
    PlannedBlock(c, b);
    added := {};
    NothingAdded(c, b, done, emitted, bound, owner);
    if vs != [] {
      ReadyOne(c, b, done, vs, owner);
      var first := EmitRef(c, b, emitted, vs[0]).value;
      var a := RefSize(c, b, emitted, vs[0], done, bound, owner);
      AddDone(c, b, done, a, emitted, first.1, bound, owner);
      ReadyRest(c, b, done, a, first.1, vs, bound, owner);
      hide Ready;
      var rest := RefsSize(c, b, first.1, vs[1..], rank, done + a, bound, owner);
      var r := EmitRefs(c, b, emitted, vs, rank).value;
      added := a + rest;
      JoinAdded(c, b, done, a, rest, first.1, r.1, bound, owner);
      CostUnion(c.f[b].instrs, a, rest, |c.f[b].instrs|);
    }
  }

  lemma ReadyOne(c: Ctx, b: nat, done: set<nat>, vs: seq<ValueRef>, owner: nat)
    requires b < |c.f| && vs != [] && Ready(c, b, done, vs, owner)
    ensures Ready(c, b, done, [vs[0]], owner)
  {
    hide Inlined;
    forall v: ValueRef ensures Count([vs[0]], v) <= Count(vs, v) {
      assert vs == [vs[0]] + vs[1..];
      CountAppend([vs[0]], vs[1..], v);
    }
  }

  lemma JoinAdded(c: Ctx, b: nat, done: set<nat>, a: set<nat>, rest: set<nat>, before: set<nat>, emitted: set<nat>, bound: nat, owner: nat)
    requires b < |c.f| && before <= emitted
    requires Added(c, b, done, a, before, bound, owner) && Added(c, b, done + a, rest, emitted, bound, owner)
    ensures Added(c, b, done, a + rest, emitted, bound, owner)
  {
    hide UsedAt, Inlined;
    forall q | q in a + rest && Inlined(c, b, q)
      ensures exists u: nat :: UsedAt(c, b, q, u) && (u in a + rest || u == owner)
    {
      if q in a {
        var u: nat :| UsedAt(c, b, q, u) && (u in a || u == owner);
      } else {
        var u: nat :| UsedAt(c, b, q, u) && (u in rest || u == owner);
      }
    }
  }

  // ----- a block -----

  /** Beyond the terminator: no position uses anything here, so whatever is done has its user done. */
  function Past(c: Ctx, b: nat): nat
    requires b < |c.f|
  {
    |c.f[b].instrs| + 1
  }

  predicate AllBelow(done: set<nat>, p: nat) { forall q :: q in done ==> q < p }

  lemma {:induction false} ReadyArgs(c: Ctx, b: nat, done: set<nat>, emitted: set<nat>, p: nat)
    requires Planned(c) && b < |c.f| && p < |c.f[b].instrs| && p !in done && Done(c, b, done, emitted, Past(c, b))
    requires c.f[b].instrs[p].1.Emit?
    ensures Ready(c, b, done, Operands(c.f[b].instrs[p].1), p)
  {
    hide Planned, Inlined, Pushed, Operands, Done;
    var i := c.f[b].instrs[p].1;
    forall q | 0 <= q < |c.f[b].instrs| && Inlined(c, b, q)
      ensures Count(Operands(i), Value(c.f[b].instrs[q].0)) <= 1
      ensures Value(c.f[b].instrs[q].0) in Operands(i) ==> q !in done
    {
      PushedOnce(c, b, q, p);
      if Value(c.f[b].instrs[q].0) in Operands(i) {
        assert UsedAt(c, b, q, p);
        NotYet(c, b, done, emitted, Past(c, b), p, q);
      }
    }
  }

  /** One effect: its arguments, and six instructions at most for the call and its result. */
  lemma {:induction false} EffectSize(c: Ctx, b: nat, emitted: set<nat>, p: nat, done: set<nat>) returns (added: set<nat>)
    requires Planned(c) && b < |c.f| && p < |c.f[b].instrs| && HasSideEffects(c.f[b].instrs[p].1)
    requires EmitEffect(c, b, emitted, p).Ok? && Done(c, b, done, emitted, Past(c, b)) && AllBelow(done, p)
    ensures var r := EmitEffect(c, b, emitted, p).value;
            && added !! done && Done(c, b, done + added, r.1, Past(c, b)) && AllBelow(done + added, p + 1)
            && Paid(c, b, r.0, added, 0)
  {
    hide EmitRefs, Planned, Done, Ready, Added, Uses, FitsSigned, PushData, Inlined;
    PlannedBlock(c, b);
    OperandsBelow(c, b, p);
    var i := c.f[b].instrs[p].1;
    var args := Operands(i);
    ReadyArgs(c, b, done, emitted, p);
    DoneBelow(c, b, done, emitted, Past(c, b), p);
    var below := RefsSize(c, b, emitted, args, p + 1, done, p, p);
    added := below + {p};
    var first, r := EmitRefs(c, b, emitted, args, p + 1).value, EmitEffect(c, b, emitted, p).value;
    EffectLength(c, b, emitted, p);
    AddedBelow(c, b, done, below, first.1, p, p);
    CostUnion(c.f[b].instrs, below, {p}, |c.f[b].instrs|);
    CostOne(c.f[b].instrs, p, |c.f[b].instrs|);
    NeverInlined(c, b, p);
    CloseAdded(c, b, done, below, first.1, r.1, p, Past(c, b), Past(c, b));
    AddDone(c, b, done, added, emitted, r.1, Past(c, b), Past(c, b));
    AddedBelow(c, b, done, added, r.1, Past(c, b), Past(c, b));
  }

  lemma AddedBelow(c: Ctx, b: nat, done: set<nat>, added: set<nat>, emitted: set<nat>, bound: nat, owner: nat)
    requires b < |c.f| && Added(c, b, done, added, emitted, bound, owner)
    ensures added !! done && AllBelow(added, bound)
  {
  }

  lemma NeverInlined(c: Ctx, b: nat, p: nat)
    requires b < |c.f| && p < |c.f[b].instrs| && HasSideEffects(c.f[b].instrs[p].1)
    ensures !Inlined(c, b, p)
  {
  }

  lemma EffectLength(c: Ctx, b: nat, emitted: set<nat>, p: nat)
    requires b < |c.f| && AllLocalSsa(c.f) && p < |c.f[b].instrs| && EmitEffect(c, b, emitted, p).Ok?
    requires Below(c, b, Operands(c.f[b].instrs[p].1), p + 1)
    ensures var args := Operands(c.f[b].instrs[p].1);
            var r := EmitEffect(c, b, emitted, p).value;
            && c.f[b].instrs[p].1.Emit? && EmitRefs(c, b, emitted, args, p + 1).Ok?
            && |r.0| <= |EmitRefs(c, b, emitted, args, p + 1).value.0| + 6
            && EmitRefs(c, b, emitted, args, p + 1).value.1 <= r.1
  {
    hide EmitRefs, Uses, FitsSigned, PushData, AllLocalSsa, Below;
  }

  lemma {:induction false} EffectsSize(c: Ctx, b: nat, emitted: set<nat>, p: nat, done: set<nat>) returns (added: set<nat>)
    requires Planned(c) && b < |c.f| && p <= |c.f[b].instrs| && EmitEffects(c, b, emitted, p).Ok?
    requires Done(c, b, done, emitted, Past(c, b)) && AllBelow(done, p)
    ensures var r := EmitEffects(c, b, emitted, p).value;
            && added !! done && Done(c, b, done + added, r.1, Past(c, b)) && AllBelow(done + added, |c.f[b].instrs|)
            && Paid(c, b, r.0, added, 0)
    decreases |c.f[b].instrs| - p
  {
    hide EmitEffect, Planned, Done;
    PlannedBlock(c, b);
    added := {};
    assert done + {} == done;
    if p < |c.f[b].instrs| {
      if HasSideEffects(c.f[b].instrs[p].1) {
        var first := EmitEffect(c, b, emitted, p).value;
        var a := EffectSize(c, b, emitted, p, done);
        var rest := EffectsSize(c, b, first.1, p + 1, done + a);
        added := a + rest;
        assert done + added == (done + a) + rest;
        CostUnion(c.f[b].instrs, a, rest, |c.f[b].instrs|);
      } else {
        added := EffectsSize(c, b, emitted, p + 1, done);
      }
    }
  }

  lemma {:induction false} SpillsSize(c: Ctx, b: nat, emitted: set<nat>, order: seq<nat>, done: set<nat>) returns (added: set<nat>)
    requires Planned(c) && b < |c.f| && EmitSpills(c, b, emitted, order).Ok?
    requires Done(c, b, done, emitted, Past(c, b)) && AllBelow(done, |c.f[b].instrs|)
    ensures var r := EmitSpills(c, b, emitted, order).value;
            && added !! done && Done(c, b, done + added, r.1, Past(c, b)) && AllBelow(done + added, |c.f[b].instrs|)
            && Paid(c, b, r.0, added, 0)
    decreases |order|
  {
    hide EmitPure, Planned, Done, StoresLate;
    PlannedBlock(c, b);
    added := {};
    assert done + {} == done;
    if order != [] {
      if StoresLate(c, b, emitted, order[0]) {
        LateParts(c, b, emitted, order);
        var a := LateSize(c, b, emitted, order[0], done);
        var first := LateCode(c, b, emitted, order[0]).value;
        var rest := SpillsSize(c, b, first.1, order[1..], done + a);
        added := a + rest;
        assert done + added == (done + a) + rest;
        CostUnion(c.f[b].instrs, a, rest, |c.f[b].instrs|);
      } else {
        added := SpillsSize(c, b, emitted, order[1..], done);
      }
    }
  }

  /** The value of a late spill and its store. */
  function LateCode(c: Ctx, b: nat, emitted: set<nat>, id: nat): Emitted
    requires b < |c.f| && AllLocalSsa(c.f) && StoresLate(c, b, emitted, id)
  {
    var p := Here(c, b, id).value;
    OperandsBelow(c, b, p);
    var r :- EmitPure(c, b, emitted, c.f[b].instrs[p].1, p + 1);
    var store :- StoreLocal(c.slot[id]);
    Ok((r.0 + store, r.1 + {id}))
  }

  lemma LateParts(c: Ctx, b: nat, emitted: set<nat>, order: seq<nat>)
    requires b < |c.f| && AllLocalSsa(c.f) && order != [] && StoresLate(c, b, emitted, order[0])
    requires EmitSpills(c, b, emitted, order).Ok?
    ensures LateCode(c, b, emitted, order[0]).Ok?
    ensures var first := LateCode(c, b, emitted, order[0]).value;
            && EmitSpills(c, b, first.1, order[1..]).Ok?
            && |EmitSpills(c, b, emitted, order).value.0| == |first.0| + |EmitSpills(c, b, first.1, order[1..]).value.0|
            && EmitSpills(c, b, emitted, order).value.1 == EmitSpills(c, b, first.1, order[1..]).value.1
  {
    hide EmitPure, AllLocalSsa, LocalPos, StoresLate, StoreLocal;
  }

  lemma {:induction false} LateSize(c: Ctx, b: nat, emitted: set<nat>, id: nat, done: set<nat>) returns (added: set<nat>)
    requires Planned(c) && b < |c.f| && StoresLate(c, b, emitted, id) && LateCode(c, b, emitted, id).Ok?
    requires Done(c, b, done, emitted, Past(c, b)) && AllBelow(done, |c.f[b].instrs|)
    ensures var r := LateCode(c, b, emitted, id).value;
            && added !! done && Done(c, b, done + added, r.1, Past(c, b)) && AllBelow(done + added, |c.f[b].instrs|)
            && Paid(c, b, r.0, added, 0)
  {
    hide EmitPure, Planned, Operands, Pushed, LocalPos, Reloadable;
    PlannedBlock(c, b);
    var p := Here(c, b, id).value;
    OperandsBelow(c, b, p);
    assert p in done ==> DoneAt(c, b, done, emitted, Past(c, b), p);
    DoneBelow(c, b, done, emitted, Past(c, b), p + 1);
    hide Done;
    var r := EmitPure(c, b, emitted, c.f[b].instrs[p].1, p + 1).value;
    var below := PureSize(c, b, emitted, p, done);
    added := below + {p};
    PayPosition(c, b, below, p, r.0);
    CloseAdded(c, b, done, below, r.1, r.1 + {id}, p, Past(c, b), Past(c, b));
    AddDone(c, b, done, added, emitted, r.1 + {id}, Past(c, b), Past(c, b));
  }

  /** The terminator reads one value at most. */
  lemma {:induction false} ExitSize(c: Ctx, b: nat, emitted: set<nat>, v: ValueRef, done: set<nat>) returns (added: set<nat>)
    requires Planned(c) && b < |c.f| && v in TermOperands(c.f[b].term) && EmitRef(c, b, emitted, v).Ok?
    requires Done(c, b, done, emitted, Past(c, b)) && AllBelow(done, |c.f[b].instrs|)
    ensures added !! done && Paid(c, b, EmitRef(c, b, emitted, v).value.0, added, 1)
  {
    var n := |c.f[b].instrs|;
    hide EmitRef, Planned, Inlined, TermOperands, LocalPos;
    PlannedBlock(c, b);
    forall q | 0 <= q < n && Inlined(c, b, q)
      ensures Count([v], Value(c.f[b].instrs[q].0)) <= 1
      ensures Value(c.f[b].instrs[q].0) in [v] ==> q !in done
    {
      if Value(c.f[b].instrs[q].0) in [v] {
        assert UsedAt(c, b, q, n);
        NotYet(c, b, done, emitted, Past(c, b), n, q);
      }
    }
    assert Ready(c, b, done, [v], n);
    DoneBelow(c, b, done, emitted, Past(c, b), n);
    added := RefSize(c, b, emitted, v, done, n, n);
  }
}
