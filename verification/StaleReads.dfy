/**
 * Common-subexpression elimination on reads of mutable objects (ir/opt.rs): element and field reads
 * are keyed like pure operations, and no write forgets them. When that is right, and when it is not.
 */
module StaleReads {
  import opened Prelude
  import opened Ir

  /** A number, or the address of an array or struct. */
  datatype Datum = Num(n: int) | Address(at: nat)

  type Heap = map<nat, seq<Datum>>

  /** An element by index, or a field by its place. */
  datatype Place = Item(index: ValueRef) | Field(k: nat)

  /** A write defines an id too; its value is that of the stored operand. */
  datatype Access =
    | Read(base: ValueRef, place: Place)
    | Write(base: ValueRef, place: Place, value: ValueRef)
    | Same(value: ValueRef)

  type Accesses = seq<(nat, Access)>

  type Known = map<nat, Datum>

  // ----- meaning -----

  function DatumOf(v: ValueRef, params: seq<Datum>, env: Known): Option<Datum> {
    match v
    case Value(id) => if id in env then Some(env[id]) else None
    case Param(k) => if k < |params| then Some(params[k]) else None
  }

  function IndexOf(place: Place, params: seq<Datum>, env: Known): Option<Datum> {
    match place
    case Field(k) => Some(Num(k))
    case Item(index) => DatumOf(index, params, env)
  }

  /** The object and the position an access denotes; `None` is a fault. */
  function Cell(base: ValueRef, place: Place, params: seq<Datum>, env: Known, heap: Heap): (r: Option<(nat, nat)>)
    ensures r.Some? ==> r.value.0 in heap && r.value.1 < |heap[r.value.0]|
  {
    var owner, index := DatumOf(base, params, env), IndexOf(place, params, env);
    if owner.None? || !owner.value.Address? || owner.value.at !in heap || index.None? || !index.value.Num? then None
    else
      var a, n := owner.value.at, index.value.n;
      if 0 <= n < |heap[a]| then Some((a, n)) else None
  }

  /** Value of the new id, and the heap after it. */
  function Perform(i: Access, params: seq<Datum>, env: Known, heap: Heap): (r: Option<(Datum, Heap)>)
    ensures r.Some? && !i.Write? ==> r.value.1 == heap
  {
    match i
    case Read(base, place) =>
      (match Cell(base, place, params, env, heap)
       case None => None
       case Some((a, n)) => Some((heap[a][n], heap)))
    case Write(base, place, value) =>
      (match (Cell(base, place, params, env, heap), DatumOf(value, params, env))
       case (Some((a, n)), Some(v)) => Some((v, heap[a := heap[a][n := v]]))
       case _ => None)
    case Same(v) => (match DatumOf(v, params, env) case Some(x) => Some((x, heap)) case None => None)
  }

  /** The block from position `p` on. */
  function Play(block: Accesses, p: nat, params: seq<Datum>, env: Known, heap: Heap): Option<(Known, Heap)>
    decreases |block| - p
  {
    if p >= |block| then Some((env, heap))
    else
      match Perform(block[p].1, params, env, heap)
      case None => None
      case Some((v, heap')) => Play(block, p + 1, params, env[block[p].0 := v], heap')
  }

  // ----- the pass -----

  function Renamed(place: Place, s: Subst): Place {
    match place
    case Item(index) => Item(Replace(index, s))
    case Field(_) => place
  }

  function Rename(i: Access, s: Subst): Access {
    match i
    case Read(base, place) => Read(Replace(base, s), Renamed(place, s))
    case Write(base, place, value) => Write(Replace(base, s), Renamed(place, s), Replace(value, s))
    case Same(v) => Same(Replace(v, s))
  }

  datatype Walk = Walk(block: Accesses, subst: Subst, table: map<Access, nat>)

  /** The walk of `IrCopy.CseStep` on accesses: reads and copies are keyed; a write passes by and forgets nothing. */
  function WalkStep(w: Walk, id: nat, i: Access): Walk {
    if i.Write? then w.(block := w.block + [(id, i)])
    else
      var key := Rename(i, w.subst);
      if key in w.table then Walk(w.block + [(id, Same(Value(w.table[key])))], w.subst[id := Value(w.table[key])], w.table)
      else Walk(w.block + [(id, key)], w.subst, w.table[key := id])
  }

  function WalkTo(block: Accesses, p: nat): (w: Walk)
    requires p <= |block|
    ensures |w.block| == p
  {
    if p == 0 then Walk([], map[], map[]) else WalkStep(WalkTo(block, p - 1), block[p - 1].0, block[p - 1].1)
  }

  /** What the walk leaves at `p`. */
  function Walked(block: Accesses, p: nat): (nat, Access)
    requires p < |block|
  {
    WalkTo(block, p + 1).block[p]
  }

  // ----- when it is right -----

  /** The read or copy at `p` is answered by an earlier one, `h`. */
  predicate Merged(block: Accesses, p: nat, h: nat)
    requires p < |block|
  {
    var w := WalkTo(block, p);
    && h < p && !block[p].1.Write? && Rename(block[p].1, w.subst) in w.table
    && w.table[Rename(block[p].1, w.subst)] == block[h].0
  }

  /** No read is answered by one that a write has come after. */
  predicate Undisturbed(block: Accesses) {
    forall h, p, q :: 0 <= h < p < |block| && block[p].1.Read? && Merged(block, p, h) && h < q < p ==> !block[q].1.Write?
  }

  /** Ids of a block are distinct. */
  predicate Distinct(block: Accesses) { forall p, q :: 0 <= p < q < |block| ==> block[p].0 != block[q].0 }

  predicate Mentions(i: Access, id: nat) {
    match i
    case Read(base, place) => base == Value(id) || place == Item(Value(id))
    case Write(base, place, value) => base == Value(id) || place == Item(Value(id)) || value == Value(id)
    case Same(v) => v == Value(id)
  }

  /** Each id is used only after it is defined. */
  predicate InOrder(block: Accesses) {
    Distinct(block) && forall p, q :: 0 <= p <= q < |block| ==> !Mentions(block[p].1, block[q].0)
  }

  // ----- what the walk remembers -----

  predicate DefinedBefore(block: Accesses, p: nat, id: nat) { exists h :: 0 <= h < p && h < |block| && block[h].0 == id }

  /** Nothing from `p` on defines what the access uses. */
  predicate Settled(block: Accesses, p: nat, i: Access) {
    forall q :: p <= q < |block| ==> !Mentions(i, block[q].0)
  }

  ghost predicate Remembers(block: Accesses, p: nat)
    requires p <= |block|
  {
    var w := WalkTo(block, p);
    && (forall key :: key in w.table ==> !key.Write? && DefinedBefore(block, p, w.table[key]) && Settled(block, p, key))
    && (forall id :: id in w.subst ==> DefinedBefore(block, p, id) && w.subst[id].Value? && DefinedBefore(block, p, w.subst[id].id))
  }

  lemma NotLater(block: Accesses, p: nat, id: nat)
    requires Distinct(block) && DefinedBefore(block, p, id)
    ensures forall q :: p <= q < |block| ==> block[q].0 != id
  {
  }

  /** Renaming by ids defined earlier mentions none defined later. */
  lemma {:induction false} RenamedSettled(block: Accesses, p: nat, i: Access, s: Subst)
    requires Distinct(block) && Settled(block, p, i)
    requires forall id :: id in s ==> s[id].Value? && DefinedBefore(block, p, s[id].id)
    ensures Settled(block, p, Rename(i, s))
  {
    forall q | p <= q < |block| ensures !Mentions(Rename(i, s), block[q].0) {
      assert !Mentions(i, block[q].0);
      forall id | id in s ensures s[id].id != block[q].0 {
        NotLater(block, p, s[id].id);
      }
    }
  }

  lemma Later(block: Accesses, p: nat)
    requires p < |block|
    ensures forall x :: DefinedBefore(block, p, x) ==> DefinedBefore(block, p + 1, x)
    ensures forall i :: Settled(block, p, i) ==> Settled(block, p + 1, i)
    ensures DefinedBefore(block, p + 1, block[p].0)
  {
    hide Mentions;
  }

  lemma UsedSettled(block: Accesses, p: nat)
    requires InOrder(block) && p < |block|
    ensures Settled(block, p, block[p].1)
  {
    hide Mentions;
  }

  lemma {:induction false} RemembersStep(block: Accesses, p: nat)
    requires InOrder(block) && p < |block| && Remembers(block, p)
    ensures Remembers(block, p + 1)
  {
    hide Mentions, Rename, Settled, DefinedBefore, WalkTo;
    var w, i := WalkTo(block, p), block[p].1;
    WalkStepIs(block, p);
    UsedSettled(block, p);
    RenamedSettled(block, p, i, w.subst);
    RenameKind(i, w.subst);
    Later(block, p);
  }

  lemma RenameKind(i: Access, s: Subst)
    ensures Rename(i, s).Write? == i.Write? && Rename(i, s).Read? == i.Read?
  {
  }

  lemma {:induction false} RemembersAll(block: Accesses, p: nat)
    requires InOrder(block) && p <= |block|
    ensures Remembers(block, p)
    decreases p
  {
    hide Rename, Mentions, Settled, WalkTo;
    if p > 0 {
      RemembersAll(block, p - 1);
      RemembersStep(block, p - 1);
    } else {
      WalkStart(block);
    }
  }

  lemma WalkStart(block: Accesses)
    ensures WalkTo(block, 0) == Walk([], map[], map[])
  {
  }

  // ----- the invariant of a run -----

  predicate NoWrite(block: Accesses, from: nat, to: nat) {
    forall q :: from <= q < to && q < |block| ==> !block[q].1.Write?
  }

  /** The holder of the key has the key's value: always for a copy, for a read while no write has come since. */
  ghost predicate Fresh(block: Accesses, p: nat, key: Access, holder: nat, params: seq<Datum>, env: Known, heap: Heap) {
    && holder in env
    && (key.Same? || (key.Read? && forall h :: 0 <= h < p && h < |block| && block[h].0 == holder ==> NoWrite(block, h + 1, p)) ==>
          Perform(key, params, env, heap) == Some((env[holder], heap)))
  }

  ghost predicate Playing(block: Accesses, p: nat, params: seq<Datum>, env: Known, heap: Heap)
    requires p <= |block|
  {
    var w := WalkTo(block, p);
    && (forall key :: key in w.table ==> Fresh(block, p, key, w.table[key], params, env, heap))
    && Alike(w.subst, env)
  }

  /** Each id has the value of its substitute. */
  predicate Alike(s: Subst, env: Known) {
    forall id :: id in s ==> s[id].Value? && id in env && s[id].id in env && env[id] == env[s[id].id]
  }

  lemma {:induction false} RenamedPerforms(i: Access, s: Subst, params: seq<Datum>, env: Known, heap: Heap)
    requires Alike(s, env)
    ensures Perform(Rename(i, s), params, env, heap) == Perform(i, params, env, heap)
  {
    assert forall v :: DatumOf(Replace(v, s), params, env) == DatumOf(v, params, env);
  }

  /** A new definition changes no access that does not mention it. */
  lemma {:induction false} OtherDefinition(i: Access, id: nat, v: Datum, params: seq<Datum>, env: Known, heap: Heap)
    requires !Mentions(i, id)
    ensures Perform(i, params, env[id := v], heap) == Perform(i, params, env, heap)
  {
  }

  lemma {:induction false} CopyPerforms(holder: nat, params: seq<Datum>, env: Known, heap: Heap)
    requires holder in env
    ensures Perform(Same(Value(holder)), params, env, heap) == Some((env[holder], heap))
  {
  }

  /** The instruction is answered by the holder of its key, which has its value. */
  lemma {:induction false} MergedValue(block: Accesses, p: nat, params: seq<Datum>, env: Known, heap: Heap)
    requires Undisturbed(block) && p < |block| && Playing(block, p, params, env, heap) && !block[p].1.Write?
    requires Rename(block[p].1, WalkTo(block, p).subst) in WalkTo(block, p).table
    ensures var w := WalkTo(block, p);
            var holder := w.table[Rename(block[p].1, w.subst)];
            holder in env && Perform(Rename(block[p].1, w.subst), params, env, heap) == Some((env[holder], heap))
  {
    hide Perform, Rename, WalkTo;
    var w, i := WalkTo(block, p), block[p].1;
    var key := Rename(i, w.subst);
    RenameKind(i, w.subst);
    if i.Read? {
      forall h | 0 <= h < p && block[h].0 == w.table[key] ensures NoWrite(block, h + 1, p) {
        assert Merged(block, p, h);
      }
    }
    assert Fresh(block, p, key, w.table[key], params, env, heap);
  }

  /** What the walk leaves performs as what was there. */
  lemma {:induction false} WalkedPerforms(block: Accesses, p: nat, params: seq<Datum>, env: Known, heap: Heap)
    requires Undisturbed(block) && p < |block| && Playing(block, p, params, env, heap)
    ensures Walked(block, p).0 == block[p].0
    ensures Perform(Walked(block, p).1, params, env, heap) == Perform(block[p].1, params, env, heap)
  {
    hide Perform, Rename, Undisturbed, Fresh;
    var w, i := WalkTo(block, p), block[p].1;
    RenamedPerforms(i, w.subst, params, env, heap);
    if !i.Write? && Rename(i, w.subst) in w.table {
      MergedValue(block, p, params, env, heap);
      CopyPerforms(w.table[Rename(i, w.subst)], params, env, heap);
    }
  }

  lemma {:induction false} WalkStepIs(block: Accesses, p: nat)
    requires p < |block|
    ensures var w, w' := WalkTo(block, p), WalkTo(block, p + 1);
            var id, i := block[p].0, block[p].1;
            var key := Rename(i, w.subst);
            && (i.Write? ==> w'.subst == w.subst && w'.table == w.table)
            && (!i.Write? && key in w.table ==> w'.subst == w.subst[id := Value(w.table[key])] && w'.table == w.table)
            && (!i.Write? && key !in w.table ==> w'.subst == w.subst && w'.table == w.table[key := id])
  {
    hide Rename;
  }

  lemma {:induction false} TableStep(block: Accesses, p: nat, params: seq<Datum>, env: Known, heap: Heap)
    requires InOrder(block) && p < |block| && Playing(block, p, params, env, heap) && Remembers(block, p)
    requires Perform(block[p].1, params, env, heap).Some?
    ensures var (v, heap') := Perform(block[p].1, params, env, heap).value;
            var w' := WalkTo(block, p + 1);
            forall key :: key in w'.table ==> Fresh(block, p + 1, key, w'.table[key], params, env[block[p].0 := v], heap')
  {
    hide Perform, Rename, Mentions, WalkTo, Fresh, InOrder, Alike, Settled;
    WalkStepIs(block, p);
    var w, i := WalkTo(block, p), block[p].1;
    var (v, heap') := Perform(i, params, env, heap).value;
    RenameKind(i, w.subst);
    forall k | k in w.table ensures Fresh(block, p + 1, k, w.table[k], params, env[block[p].0 := v], heap') {
      StaysFresh(block, p, k, w.table[k], params, env, heap);
    }
    if !i.Write? && Rename(i, w.subst) !in w.table {
      NewKey(block, p, params, env, heap);
    }
  }

  lemma {:induction false} NewKey(block: Accesses, p: nat, params: seq<Datum>, env: Known, heap: Heap)
    requires InOrder(block) && p < |block| && Playing(block, p, params, env, heap) && Remembers(block, p)
    requires Perform(block[p].1, params, env, heap).Some? && !block[p].1.Write?
    ensures var (v, heap') := Perform(block[p].1, params, env, heap).value;
            Fresh(block, p + 1, Rename(block[p].1, WalkTo(block, p).subst), block[p].0, params, env[block[p].0 := v], heap')
  {
    hide Perform, Rename, Mentions, WalkTo;
    var w, id, i := WalkTo(block, p), block[p].0, block[p].1;
    assert Settled(block, p, i);
    RenamedSettled(block, p, i, w.subst);
    RenamedPerforms(i, w.subst, params, env, heap);
    OtherDefinition(Rename(i, w.subst), id, Perform(i, params, env, heap).value.0, params, env, heap);
  }

  lemma {:induction false} SubstStep(block: Accesses, p: nat, params: seq<Datum>, env: Known, heap: Heap)
    requires InOrder(block) && Undisturbed(block) && p < |block| && Playing(block, p, params, env, heap) && Remembers(block, p)
    requires Perform(block[p].1, params, env, heap).Some?
    ensures Alike(WalkTo(block, p + 1).subst, env[block[p].0 := Perform(block[p].1, params, env, heap).value.0])
  {
    hide Perform, Rename, Mentions, WalkTo, Undisturbed, Settled, Merged;
    WalkStepIs(block, p);
    var w, id, i := WalkTo(block, p), block[p].0, block[p].1;
    forall x | DefinedBefore(block, p, x) ensures x != id {
      NotLater(block, p, x);
    }
    if !i.Write? && Rename(i, w.subst) in w.table {
      RenamedPerforms(i, w.subst, params, env, heap);
      MergedValue(block, p, params, env, heap);
    }
  }

  lemma {:induction false} PlayingStep(block: Accesses, p: nat, params: seq<Datum>, env: Known, heap: Heap)
    requires InOrder(block) && Undisturbed(block) && p < |block| && Playing(block, p, params, env, heap)
    requires Perform(block[p].1, params, env, heap).Some?
    ensures var (v, heap') := Perform(block[p].1, params, env, heap).value;
            Playing(block, p + 1, params, env[block[p].0 := v], heap')
  {
    hide Perform, WalkTo, Fresh, Alike, InOrder, Undisturbed, Remembers;
    RemembersAll(block, p);
    TableStep(block, p, params, env, heap);
    SubstStep(block, p, params, env, heap);
  }

  lemma {:induction false} StaysFresh(block: Accesses, p: nat, key: Access, holder: nat, params: seq<Datum>, env: Known, heap: Heap)
    requires InOrder(block) && p < |block| && Fresh(block, p, key, holder, params, env, heap)
    requires !key.Write? && DefinedBefore(block, p, holder) && Settled(block, p, key) && Perform(block[p].1, params, env, heap).Some?
    ensures var (v, heap') := Perform(block[p].1, params, env, heap).value;
            Fresh(block, p + 1, key, holder, params, env[block[p].0 := v], heap')
  {
    hide Mentions;
    var (id, i) := block[p];
    var (v, heap') := Perform(i, params, env, heap).value;
    NotLater(block, p, holder);
    OtherDefinition(key, id, v, params, env, heap);
    if key.Same? {
      SameAnywhere(key, params, env[id := v], heap, heap');
    } else if forall h :: 0 <= h < p + 1 && h < |block| && block[h].0 == holder ==> NoWrite(block, h + 1, p + 1) {
      var h :| 0 <= h < p && h < |block| && block[h].0 == holder;
      assert NoWrite(block, h + 1, p + 1) && !block[p].1.Write?;
      assert forall g :: 0 <= g < p && g < |block| && block[g].0 == holder ==> NoWrite(block, g + 1, p);
    }
  }

  lemma SameAnywhere(key: Access, params: seq<Datum>, env: Known, heap: Heap, heap': Heap)
    requires key.Same?
    ensures Perform(key, params, env, heap').Some? == Perform(key, params, env, heap).Some?
    ensures Perform(key, params, env, heap).Some? ==>
              Perform(key, params, env, heap').value.0 == Perform(key, params, env, heap).value.0 && Perform(key, params, env, heap').value.1 == heap'
  {
  }

  lemma {:induction false} WalkedFinal(block: Accesses, p: nat, n: nat)
    requires p < n <= |block|
    ensures WalkTo(block, n).block[p] == Walked(block, p)
    decreases n
  {
    hide Rename;
    if p < n - 1 {
      WalkedFinal(block, p, n - 1);
    }
  }

  lemma {:induction false} UndisturbedFrom(block: Accesses, p: nat, params: seq<Datum>, env: Known, heap: Heap)
    requires InOrder(block) && Undisturbed(block) && p <= |block| && Playing(block, p, params, env, heap)
    ensures Play(WalkTo(block, |block|).block, p, params, env, heap) == Play(block, p, params, env, heap)
    decreases |block| - p
  {
    hide Perform, Playing, WalkTo, InOrder, Undisturbed;
    if p < |block| {
      WalkedFinal(block, p, |block|);
      WalkedPerforms(block, p, params, env, heap);
      if Perform(block[p].1, params, env, heap).Some? {
        var (v, heap') := Perform(block[p].1, params, env, heap).value;
        PlayingStep(block, p, params, env, heap);
        UndisturbedFrom(block, p + 1, params, env[block[p].0 := v], heap');
      }
    }
  }

  /** While no write stands between a read and the earlier one that answers it, the pass changes nothing, faults included. */
  lemma {:induction false} UndisturbedKeeps(block: Accesses, params: seq<Datum>, env: Known, heap: Heap)
    requires InOrder(block) && Undisturbed(block)
    ensures Play(WalkTo(block, |block|).block, 0, params, env, heap) == Play(block, 0, params, env, heap)
  {
    hide Perform, InOrder, Undisturbed, Play;
    WalkStart(block);
    UndisturbedFrom(block, 0, params, env, heap);
  }

  // ----- exactly when -----

  /** In the final values, each merged instruction has the value of the one that answers it. */
  ghost predicate Coincide(block: Accesses, env: Known) {
    forall p, h :: 0 <= h < p < |block| && Merged(block, p, h) ==> block[p].0 in env && block[h].0 in env && env[block[p].0] == env[block[h].0]
  }

  lemma {:induction false} FinalValue(block: Accesses, p: nat, params: seq<Datum>, env: Known, heap: Heap, id: nat)
    requires Play(block, p, params, env, heap).Some? && id in env && forall q :: p <= q < |block| ==> block[q].0 != id
    ensures var e := Play(block, p, params, env, heap).value.0; id in e && e[id] == env[id]
    decreases |block| - p
  {
    hide Perform;
    if p < |block| {
      var (v, heap') := Perform(block[p].1, params, env, heap).value;
      FinalValue(block, p + 1, params, env[block[p].0 := v], heap', id);
    }
  }

  predicate DefinedIn(block: Accesses, p: nat, env: Known) { forall h :: 0 <= h < p && h < |block| ==> block[h].0 in env }

  lemma {:induction false} OneStep(block: Accesses, p: nat, params: seq<Datum>, env: Known, heap: Heap)
    requires p < |block| && Play(block, p, params, env, heap).Some?
    ensures Perform(block[p].1, params, env, heap).Some?
    ensures var (v, heap') := Perform(block[p].1, params, env, heap).value;
            Play(block, p, params, env, heap) == Play(block, p + 1, params, env[block[p].0 := v], heap')
  {
    hide Perform;
  }

  /** Where the values coincide, what the walk leaves performs alike, and its substitutes stay alike. */
  lemma {:induction false} CoincidingStep(block: Accesses, p: nat, params: seq<Datum>, env: Known, heap: Heap)
    requires InOrder(block) && p < |block| && DefinedIn(block, p, env) && Alike(WalkTo(block, p).subst, env)
    requires Play(block, p, params, env, heap).Some? && Coincide(block, Play(block, p, params, env, heap).value.0)
    ensures Perform(block[p].1, params, env, heap).Some? && Walked(block, p).0 == block[p].0
    ensures Perform(Walked(block, p).1, params, env, heap) == Perform(block[p].1, params, env, heap)
    ensures Alike(WalkTo(block, p + 1).subst, env[block[p].0 := Perform(block[p].1, params, env, heap).value.0])
  {
    hide Perform, Rename, Mentions, Play, Settled, Coincide, Merged, Alike;
    OneStep(block, p, params, env, heap);
    RemembersAll(block, p);
    WalkStepIs(block, p);
    var w, id, i := WalkTo(block, p), block[p].0, block[p].1;
    var v := Perform(i, params, env, heap).value.0;
    RenamedPerforms(i, w.subst, params, env, heap);
    NotLaterAll(block, p);
    AlikeGrows(block, p, w.subst, env, v);
    if !i.Write? && Rename(i, w.subst) in w.table {
      var holder := w.table[Rename(i, w.subst)];
      HolderValue(block, p, params, env, heap);
      CopyPerforms(holder, params, env, heap);
      AlikeAdds(w.subst, id, holder, env[id := v]);
    }
  }

  lemma NotLaterAll(block: Accesses, p: nat)
    requires Distinct(block) && p < |block|
    ensures forall x :: DefinedBefore(block, p, x) ==> x != block[p].0
  {
  }

  lemma AlikeGrows(block: Accesses, p: nat, s: Subst, env: Known, v: Datum)
    requires p < |block| && Alike(s, env) && forall x :: DefinedBefore(block, p, x) ==> x != block[p].0
    requires forall id :: id in s ==> DefinedBefore(block, p, id) && s[id].Value? && DefinedBefore(block, p, s[id].id)
    ensures Alike(s, env[block[p].0 := v])
  {
    hide DefinedBefore;
  }

  lemma AlikeAdds(s: Subst, id: nat, holder: nat, env: Known)
    requires Alike(s, env) && id in env && holder in env && env[id] == env[holder]
    ensures Alike(s[id := Value(holder)], env)
  {
  }

  /** The value of a merged instruction is that of its holder, and both are final. */
  lemma {:induction false} HolderValue(block: Accesses, p: nat, params: seq<Datum>, env: Known, heap: Heap)
    requires InOrder(block) && p < |block| && DefinedIn(block, p, env) && !block[p].1.Write? && Remembers(block, p)
    requires Play(block, p, params, env, heap).Some? && Coincide(block, Play(block, p, params, env, heap).value.0)
    requires Rename(block[p].1, WalkTo(block, p).subst) in WalkTo(block, p).table
    ensures var holder := WalkTo(block, p).table[Rename(block[p].1, WalkTo(block, p).subst)];
            && holder in env && holder != block[p].0
            && Perform(block[p].1, params, env, heap) == Some((env[holder], heap))
  {
    hide Perform, Rename, Mentions, Play, Settled;
    OneStep(block, p, params, env, heap);
    var w := WalkTo(block, p);
    var holder := w.table[Rename(block[p].1, w.subst)];
    var h :| 0 <= h < p && h < |block| && block[h].0 == holder;
    assert Merged(block, p, h);
    var (v, heap') := Perform(block[p].1, params, env, heap).value;
    FinalValue(block, p, params, env, heap, holder);
    FinalValue(block, p + 1, params, env[block[p].0 := v], heap', block[p].0);
    ReadKeepsHeap(block[p].1, params, env, heap);
  }

  lemma ReadKeepsHeap(i: Access, params: seq<Datum>, env: Known, heap: Heap)
    requires !i.Write? && Perform(i, params, env, heap).Some?
    ensures Perform(i, params, env, heap).value.1 == heap
  {
  }

  lemma {:induction false} CoincidingFrom(block: Accesses, p: nat, params: seq<Datum>, env: Known, heap: Heap)
    requires InOrder(block) && p <= |block| && DefinedIn(block, p, env) && Alike(WalkTo(block, p).subst, env)
    requires Play(block, p, params, env, heap).Some? && Coincide(block, Play(block, p, params, env, heap).value.0)
    ensures Play(WalkTo(block, |block|).block, p, params, env, heap) == Play(block, p, params, env, heap)
    decreases |block| - p
  {
    hide Perform, WalkTo, InOrder, Coincide, Alike;
    if p < |block| {
      WalkedFinal(block, p, |block|);
      OneStep(block, p, params, env, heap);
      CoincidingStep(block, p, params, env, heap);
      var (v, heap') := Perform(block[p].1, params, env, heap).value;
      CoincidingFrom(block, p + 1, params, env[block[p].0 := v], heap');
    }
  }

  /** The other way: a walked block that ends with these values has them coincide. */
  lemma {:induction false} WalkedCoincides(block: Accesses, k: nat, params: seq<Datum>, env: Known, heap: Heap, p: nat, h: nat)
    requires InOrder(block) && k <= p < |block| && DefinedIn(block, k, env) && h < p && Merged(block, p, h)
    requires Play(WalkTo(block, |block|).block, k, params, env, heap).Some?
    ensures var e := Play(WalkTo(block, |block|).block, k, params, env, heap).value.0;
            block[p].0 in e && block[h].0 in e && e[block[p].0] == e[block[h].0]
    decreases p - k
  {
    hide Perform, WalkTo, Merged, Mentions;
    var out := WalkTo(block, |block|).block;
    WalkedFinal(block, k, |block|);
    WalkedId(block, k);
    OneStep(out, k, params, env, heap);
    var (v, heap') := Perform(out[k].1, params, env, heap).value;
    if k < p {
      WalkedCoincides(block, k + 1, params, env[block[k].0 := v], heap', p, h);
    } else {
      MergedIsCopy(block, p, h);
      CopyPerforms(block[h].0, params, env, heap);
      forall q | k <= q < |block| ensures out[q].0 == block[q].0 {
        WalkedFinal(block, q, |block|);
        WalkedId(block, q);
      }
      FinalValue(out, p, params, env, heap, block[h].0);
      FinalValue(out, p + 1, params, env[block[p].0 := v], heap', block[p].0);
    }
  }

  lemma WalkedId(block: Accesses, p: nat)
    requires p < |block|
    ensures Walked(block, p).0 == block[p].0
  {
    hide Rename;
  }

  lemma MergedIsCopy(block: Accesses, p: nat, h: nat)
    requires h < p < |block| && Merged(block, p, h)
    ensures Walked(block, p) == (block[p].0, Same(Value(block[h].0)))
  {
    hide Rename;
  }

  /**
   * For every block and every run of it that succeeds: the walk gives the same values and the same
   * objects exactly when each read it merged had the value of the read that answers it.
   */
  lemma {:induction false} MergesRightExactlyWhen(block: Accesses, params: seq<Datum>, heap: Heap)
    requires InOrder(block) && Play(block, 0, params, map[], heap).Some?
    ensures Play(WalkTo(block, |block|).block, 0, params, map[], heap) == Play(block, 0, params, map[], heap) <==>
            Coincide(block, Play(block, 0, params, map[], heap).value.0)
  {
    hide Perform, Play, WalkTo, InOrder, Merged;
    WalkStart(block);
    if Coincide(block, Play(block, 0, params, map[], heap).value.0) {
      CoincidingFrom(block, 0, params, map[], heap);
    }
    if Play(WalkTo(block, |block|).block, 0, params, map[], heap) == Play(block, 0, params, map[], heap) {
      forall p, h | 0 <= h < p < |block| && Merged(block, p, h)
        ensures var e := Play(block, 0, params, map[], heap).value.0;
                block[p].0 in e && block[h].0 in e && e[block[p].0] == e[block[h].0]
      {
        WalkedCoincides(block, 0, params, map[], heap, p, h);
      }
    }
  }

  // ----- when it is not -----

  /** `a[i]; b[j] := v; a[i]`, on the parameters of the block. */
  const READ_WRITE_READ: Accesses := [
    (0, Read(Param(0), Item(Param(1)))), (1, Write(Param(2), Item(Param(3)), Param(4))), (2, Read(Param(0), Item(Param(1))))]

  const READ_WRITE_COPY: Accesses := [
    (0, Read(Param(0), Item(Param(1)))), (1, Write(Param(2), Item(Param(3)), Param(4))), (2, Same(Value(0)))]

  lemma {:induction false} MergedOverWrite()
    ensures WalkTo(READ_WRITE_READ, 3).block == READ_WRITE_COPY
    ensures !Undisturbed(READ_WRITE_READ)
  {
    var b := READ_WRITE_READ;
    var key := Read(Param(0), Item(Param(1)));
    assert WalkTo(b, 0) == Walk([], map[], map[]);
    assert WalkTo(b, 1) == Walk([(0, key)], map[], map[key := 0]);
    assert WalkTo(b, 2) == Walk([(0, key), b[1]], map[], map[key := 0]);
    assert WalkTo(b, 3).block == [(0, key), b[1]] + [(2, Same(Value(0)))];
    assert Merged(b, 2, 0) && b[1].1.Write?;
  }

  /** A successful run of those three: the element before, the write, and the second read. */
  lemma {:induction false} ReadWriteRead(params: seq<Datum>, heap: Heap)
    requires |params| == 5 && Play(READ_WRITE_READ, 0, params, map[], heap).Some?
    ensures var e := map[];
            && Cell(Param(0), Item(Param(1)), params, e, heap).Some? && Cell(Param(2), Item(Param(3)), params, e, heap).Some?
            && var ((a, n), (b, m)) := (Cell(Param(0), Item(Param(1)), params, e, heap).value, Cell(Param(2), Item(Param(3)), params, e, heap).value);
               var (before, after) := (heap[a][n], if (a, n) == (b, m) then params[4] else heap[a][n]);
               && Play(READ_WRITE_READ, 0, params, e, heap) == Some((map[0 := before, 1 := params[4], 2 := after], heap[b := heap[b][m := params[4]]]))
               && Play(READ_WRITE_COPY, 0, params, e, heap) == Some((map[0 := before, 1 := params[4], 2 := before], heap[b := heap[b][m := params[4]]]))
  {
  }

  /** So the merged second read is right exactly when the write missed the element or stored what it held. */
  lemma {:induction false} SecondReadExactlyWhen(params: seq<Datum>, heap: Heap)
    requires |params| == 5 && Play(READ_WRITE_READ, 0, params, map[], heap).Some?
    ensures Cell(Param(0), Item(Param(1)), params, map[], heap).Some? && Cell(Param(2), Item(Param(3)), params, map[], heap).Some?
    ensures var (a, n) := Cell(Param(0), Item(Param(1)), params, map[], heap).value;
            Play(WalkTo(READ_WRITE_READ, 3).block, 0, params, map[], heap) == Play(READ_WRITE_READ, 0, params, map[], heap) <==>
            Cell(Param(2), Item(Param(3)), params, map[], heap).value != (a, n) || params[4] == heap[a][n]
  {
    hide Play, Cell;
    MergedOverWrite();
    ReadWriteRead(params, heap);
    var merged, plain := Play(READ_WRITE_COPY, 0, params, map[], heap).value.0, Play(READ_WRITE_READ, 0, params, map[], heap).value.0;
    assert merged == plain ==> merged[2] == plain[2];
  }
}
