/** Method offsets in the manifest (build_target.rs) and their check against a script (disasm.rs). */
module Manifest {
  import opened Prelude
  import opened Bytecode
  import opened Disasm
  import opened Layout
  import opened Linker
  import opened LinkedScript

  const U32: nat := 0x1_0000_0000

  // ----- computing the offsets -----

  /** The length of a routine, summed in 32 bits. */
  function Length32(code: Script): nat { ByteLen(code) % U32 }

  method Length(code: Script) returns (n: nat)
    ensures n == Length32(code)
  {
    n := 0;
    for k := 0 to |code|
      invariant n == Offset(code, k) % U32
    {
      OffsetStep(code, k);
      WrapAdd(Offset(code, k), EncodedLen(code[k]));
      n := (n + EncodedLen(code[k])) % U32;
    }
    assert code[..|code|] == code;
  }

  lemma WrapAdd(a: nat, b: nat)
    ensures (a % U32 + b) % U32 == (a + b) % U32
  {
    assert (a % U32 + b) - (a + b) == -(a / U32) * U32;
    ModShift(a + b, -(a / U32));
  }

  lemma {:induction false} ModShift(a: int, k: int)
    ensures (a + k * U32) % U32 == a % U32
    decreases if k < 0 then -k else k
  {
    if k > 0 {
      ModShift(a, k - 1);
    } else if k < 0 {
      ModShift(a, k + 1);
    }
  }

  /** Every routine is shorter than 4 GiB, so its own length does not wrap. */
  predicate Short(fs: Program) { forall f :: f in fs ==> ByteLen(f.routine.code) < 0x1_0000_0000 }

  /** What the routines add to the running offset. */
  function Bytes32(fs: Program): nat
    decreases |fs|
  {
    if fs == [] then 0 else Bytes32(fs[..|fs| - 1]) + Length32(fs[|fs| - 1].routine.code)
  }

  lemma Bytes32Step(fs: Program, k: nat)
    requires k < |fs|
    ensures Bytes32(fs[..k + 1]) == Bytes32(fs[..k]) + Length32(fs[k].routine.code)
  {
    hide Length32;
    assert fs[..k + 1][..k] == fs[..k];
  }

  lemma {:induction false} Bytes32Append(a: Program, b: Program)
    ensures Bytes32(a + b) == Bytes32(a) + Bytes32(b)
    decreases |b|
  {
    hide Length32;
    if b == [] {
      assert a + b == a;
    } else {
      Bytes32Append(a, b[..|b| - 1]);
      assert (a + b)[..|a + b| - 1] == a + b[..|b| - 1];
    }
  }

  lemma MoreBytes(fs: Program, k: nat)
    requires k <= |fs|
    ensures Bytes32(fs[..k]) <= Bytes32(fs)
  {
    hide Bytes32;
    Bytes32Append(fs[..k], fs[k..]);
    assert fs == fs[..k] + fs[k..];
  }

  /** Without wrapping, that is the length of their code. */
  lemma {:induction false} ShortBytes(fs: Program)
    requires Short(fs)
    ensures Bytes32(fs) == ByteLen(Code(fs))
    decreases |fs|
  {
    hide Code, ByteLen;
    if fs == [] {
      NoBytes();
    } else {
      var n := |fs| - 1;
      assert fs[n] in fs && forall f :: f in fs[..n] ==> f in fs;
      ShortBytes(fs[..n]);
      StartStep(fs, n);
      assert fs[..n + 1] == fs;
    }
  }

  lemma NoBytes()
    ensures ByteLen(Code([])) == 0
  {
  }

  /** Skip one list of routines; fails when the running offset leaves 32 bits. */
  method Skip(fs: Program, start: nat) returns (end: Option<nat>)
    requires start < U32
    ensures end == if start + Bytes32(fs) < U32 then Some(start + Bytes32(fs)) else None
  {
    hide Length32;
    var off: nat := start;
    for k := 0 to |fs|
      invariant off == start + Bytes32(fs[..k]) < U32
    {
      Bytes32Step(fs, k);
      var n := Length(fs[k].routine.code);
      if off + n >= U32 {
        MoreBytes(fs, k + 1);
        return None;
      }
      off := off + n;
    }
    assert fs[..|fs|] == fs;
    return Some(off);
  }

  /** The table after `k` contract routines: a name that comes again gets the later offset. */
  function OffsetTable(contract: Program, before: nat, k: nat): map<string, nat>
    requires k <= |contract|
  {
    if k == 0 then map[]
    else OffsetTable(contract, before, k - 1)[contract[k - 1].symbol := before + Bytes32(contract[..k - 1])]
  }

  /** Routine `k` is the last of the first `n` with its name. */
  predicate LastOfName(contract: Program, k: nat, n: nat)
    requires n <= |contract|
  {
    k < n && forall i :: k < i < n ==> contract[i].symbol != contract[k].symbol
  }

  /** The table has the names of the routines, each with the offset of the last routine of that name. */
  lemma {:induction false} OffsetTableMeans(contract: Program, before: nat, n: nat, k: nat)
    requires n <= |contract| && LastOfName(contract, k, n)
    ensures contract[k].symbol in OffsetTable(contract, before, n)
    ensures OffsetTable(contract, before, n)[contract[k].symbol] == before + Bytes32(contract[..k])
    decreases n
  {
    hide Bytes32;
    if k < n - 1 {
      OffsetTableMeans(contract, before, n - 1, k);
    }
  }

  lemma {:induction false} OffsetTableNames(contract: Program, before: nat, n: nat, name: string)
    requires n <= |contract|
    ensures name in OffsetTable(contract, before, n) <==> exists k :: 0 <= k < n && contract[k].symbol == name
    decreases n
  {
    hide Bytes32;
    if n > 0 {
      OffsetTableNames(contract, before, n - 1, name);
    }
  }

  /**
   * The offset of every contract method in the flattened script. A method is known here by its
   * link symbol, which is the contract's name followed by its own.
   */
  method MethodOffsets(package: Program, structs: Program, contract: Program)
    returns (r: Option<map<string, nat>>)
    ensures r == if Bytes32(package + structs + contract) < U32
                 then Some(OffsetTable(contract, Bytes32(package + structs), |contract|)) else None
  {
    hide Bytes32, Length32;
    Bytes32Append(package, structs);
    Bytes32Append(package + structs, contract);
    Bytes32Empty();
    var skipped := Skip(package, 0);
    if skipped.None? {
      return None;
    }
    skipped := Skip(structs, skipped.value);
    if skipped.None? {
      return None;
    }
    var off: nat := skipped.value;
    ghost var before := Bytes32(package + structs);
    var table: map<string, nat> := map[];
    for k := 0 to |contract|
      invariant off == before + Bytes32(contract[..k]) < U32
      invariant table == OffsetTable(contract, before, k)
    {
      var f := contract[k];
      table := table[f.symbol := off];
      Bytes32Step(contract, k);
      var n := Length(f.routine.code);
      if off + n >= U32 {
        MoreBytes(contract, k + 1);
        return None;
      }
      off := off + n;
    }
    assert contract[..|contract|] == contract;
    return Some(table);
  }

  lemma Bytes32Empty()
    ensures Bytes32([]) == 0
  {
  }

  /** The offsets of the table are those of the linker, as long as no routine reaches 4 GiB. */
  lemma OffsetsAreStarts(package: Program, structs: Program, contract: Program, k: nat)
    requires Short(package + structs + contract) && k <= |contract|
    ensures Bytes32(package + structs) + Bytes32(contract[..k]) == Start(package + structs + contract, |package| + |structs| + k)
    ensures Bytes32(package + structs + contract) == ByteLen(Code(package + structs + contract))
  {
    hide Bytes32, ByteLen, Code;
    var all := package + structs + contract;
    ShortBytes(all);
    assert all[..|package| + |structs| + k] == package + structs + contract[..k];
    assert forall f :: f in all[..|package| + |structs| + k] ==> f in all;
    ShortBytes(all[..|package| + |structs| + k]);
    Bytes32Append(package + structs, contract[..k]);
  }

  // ----- checking the offsets -----

  datatype Method = Method(name: string, offset: nat)

  /** A marker in a listing; without a name it stands for the routines the manifest does not list. */
  datatype Break = Break(offset: nat, name: Option<string>)

  datatype BreakError = PastEnd(name: string) | NotOnBoundary(name: string) | DuplicateOffset(name: string)

  predicate Sorted(ms: seq<Method>) { forall i, j :: 0 <= i < j < |ms| ==> ms[i].offset <= ms[j].offset }

  /** A stable insertion sort by offset. */
  function SortByOffset(ms: seq<Method>): seq<Method> {
    if ms == [] then [] else Insert(ms[0], SortByOffset(ms[1..]))
  }

  function Insert(m: Method, ms: seq<Method>): seq<Method> {
    if ms == [] || m.offset <= ms[0].offset then [m] + ms else [ms[0]] + Insert(m, ms[1..])
  }

  lemma {:induction false} InsertKeeps(m: Method, ms: seq<Method>)
    ensures multiset(Insert(m, ms)) == multiset(ms) + multiset{m}
  {
    if ms != [] && m.offset > ms[0].offset {
      assert ms == [ms[0]] + ms[1..];
      InsertKeeps(m, ms[1..]);
    }
  }

  lemma {:induction false} InsertSorted(m: Method, ms: seq<Method>)
    requires Sorted(ms)
    ensures Sorted(Insert(m, ms)) && Insert(m, ms) != []
    ensures Insert(m, ms)[0].offset == if ms == [] || m.offset <= ms[0].offset then m.offset else ms[0].offset
  {
    if ms != [] && m.offset > ms[0].offset {
      InsertSorted(m, ms[1..]);
      var r := Insert(m, ms[1..]);
      assert Insert(m, ms) == [ms[0]] + r;
    }
  }

  lemma {:induction false} SortSorts(ms: seq<Method>)
    ensures Sorted(SortByOffset(ms)) && multiset(SortByOffset(ms)) == multiset(ms)
  {
    hide Insert, Sorted;
    if ms != [] {
      SortSorts(ms[1..]);
      InsertSorted(ms[0], SortByOffset(ms[1..]));
      InsertKeeps(ms[0], SortByOffset(ms[1..]));
      FirstApart(ms);
    } else {
      NothingSorted();
    }
  }

  lemma FirstApart(ms: seq<Method>)
    requires ms != []
    ensures multiset(ms) == multiset(ms[1..]) + multiset{ms[0]}
  {
    assert ms == [ms[0]] + ms[1..];
  }

  lemma NothingSorted()
    ensures Sorted([])
  {
  }

  /** An instruction begins at this byte. */
  predicate Boundary(s: Script, offset: nat) { exists k :: 0 <= k < |s| && Offset(s, k) == offset }

  predicate DistinctOffsets(ms: seq<Method>) { forall i, j :: 0 <= i < j < |ms| ==> ms[i].offset != ms[j].offset }

  /** Every method begins at an instruction, and no two at the same one. */
  predicate Acceptable(ms: seq<Method>, s: Script) {
    DistinctOffsets(ms) && forall m :: m in ms ==> Boundary(s, m.offset)
  }

  function Named(ms: seq<Method>): seq<Break> {
    seq(|ms|, k requires 0 <= k < |ms| => Break(ms[k].offset, Some(ms[k].name)))
  }

  /** One break per method in offset order, after one for whatever comes before the first. */
  function BreaksOf(ms: seq<Method>): seq<Break> {
    if ms != [] && ms[0].offset > 0 then [Break(0, None)] + Named(ms) else Named(ms)
  }

  /** The byte at which each instruction begins, and the length of the script. */
  method Starts(instructions: Script) returns (starts: set<nat>, end: nat)
    ensures end == Offset(instructions, |instructions|)
    ensures forall n: nat :: n in starts <==> Boundary(instructions, n)
  {
    starts, end := {}, 0;
    for k := 0 to |instructions|
      invariant end == Offset(instructions, k)
      invariant forall n: nat :: n in starts <==> exists j :: 0 <= j < k && Offset(instructions, j) == n
    {
      OffsetStep(instructions, k);
      starts := starts + {end};
      end := end + EncodedLen(instructions[k]);
    }
  }

  /** The first complaint about methods in offset order, if any. */
  method CheckOffsets(sorted: seq<Method>, instructions: Script) returns (error: Option<BreakError>)
    requires Sorted(sorted)
    ensures error.None? <==> Acceptable(sorted, instructions)
    ensures match error
            case Some(PastEnd(name)) => exists m :: m in sorted && m.name == name && m.offset > ByteLen(instructions)
            case Some(NotOnBoundary(name)) => exists m :: m in sorted && m.name == name && !Boundary(instructions, m.offset)
            case Some(DuplicateOffset(name)) =>
              exists i, j :: 0 <= i < j < |sorted| && sorted[i].offset == sorted[j].offset && sorted[j].name == name
            case None => true
  {
    hide Boundary;
    var starts, end := Starts(instructions);
    assert instructions[..|instructions|] == instructions;
    var last: Option<nat> := None;
    for k := 0 to |sorted|
      invariant last == if k == 0 then None else Some(sorted[k - 1].offset)
      invariant forall j :: 0 <= j < k ==> Boundary(instructions, sorted[j].offset)
      invariant forall i, j :: 0 <= i < j < k ==> sorted[i].offset != sorted[j].offset
    {
      var m := sorted[k];
      assert m in sorted;
      if m.offset > end {
        BoundaryInside(instructions, m.offset);
        return Some(PastEnd(m.name));
      }
      if m.offset !in starts {
        return Some(NotOnBoundary(m.name));
      }
      if last == Some(m.offset) {
        assert sorted[k - 1].offset == sorted[k].offset;
        return Some(DuplicateOffset(m.name));
      }
      last := Some(m.offset);
    }
    return None;
  }

  /** `build_manifest_breaks`. */
  method BuildManifestBreaks(methods: seq<Method>, instructions: Script) returns (r: Result<seq<Break>, BreakError>)
    ensures r.Ok? <==> Acceptable(methods, instructions)
    ensures r.Ok? ==> r.value == BreaksOf(SortByOffset(methods))
  {
    hide SortByOffset, Acceptable, Named, Sorted, DistinctOffsets, Boundary;
    var sorted := SortByOffset(methods);
    SortSorts(methods);
    SameAcceptable(methods, sorted, instructions);
    var error := CheckOffsets(sorted, instructions);
    if error.Some? {
      return Err(error.value);
    }
    var breaks: seq<Break> := [];
    if |sorted| > 0 && sorted[0].offset > 0 {
      breaks := [Break(0, None)];
    }
    ghost var header := breaks;
    NamedNone(header);
    for k := 0 to |sorted|
      invariant breaks == header + Named(sorted[..k])
    {
      NamedStep(header, sorted, k);
      breaks := breaks + [Break(sorted[k].offset, Some(sorted[k].name))];
    }
    assert sorted[..|sorted|] == sorted;
    assert [] + Named(sorted) == Named(sorted);
    return Ok(breaks);
  }

  lemma NamedNone(header: seq<Break>)
    ensures header + Named([]) == header
  {
  }

  lemma NamedStep(header: seq<Break>, ms: seq<Method>, k: nat)
    requires k < |ms|
    ensures header + Named(ms[..k + 1]) == header + Named(ms[..k]) + [Break(ms[k].offset, Some(ms[k].name))]
  {
    assert Named(ms[..k + 1]) == Named(ms[..k]) + [Break(ms[k].offset, Some(ms[k].name))];
  }

  lemma BoundaryInside(s: Script, offset: nat)
    requires offset > Offset(s, |s|)
    ensures !Boundary(s, offset)
  {
    forall k | 0 <= k < |s| ensures Offset(s, k) != offset {
      OffsetsIncrease(s, k, |s|);
    }
  }

  lemma SameAcceptable(a: seq<Method>, b: seq<Method>, s: Script)
    requires multiset(a) == multiset(b)
    ensures Acceptable(a, s) <==> Acceptable(b, s)
    ensures DistinctOffsets(a) <==> DistinctOffsets(b)
  {
    SameMembers(a, b);
    if DistinctOffsets(a) { SameDistinct(a, b); }
    if DistinctOffsets(b) { SameDistinct(b, a); }
  }

  lemma SameMembers(a: seq<Method>, b: seq<Method>)
    requires multiset(a) == multiset(b)
    ensures forall m :: m in a <==> m in b
  {
    forall m ensures m in a <==> m in b {
      assert m in a <==> m in multiset(a);
    }
  }

  lemma SameDistinct(a: seq<Method>, b: seq<Method>)
    requires multiset(a) == multiset(b) && DistinctOffsets(a)
    ensures DistinctOffsets(b)
  {
    SameMembers(a, b);
    forall i, j | 0 <= i < j < |b| ensures b[i].offset != b[j].offset {
      if b[i].offset == b[j].offset {
        assert b[i] in a && b[j] in a;
        Twice(b, i, j);
        if b[i] == b[j] {
          OnceOnly(a, b[i]);
        }
      }
    }
  }

  lemma Twice(b: seq<Method>, i: nat, j: nat)
    requires i < j < |b|
    ensures b[i] == b[j] ==> multiset(b)[b[i]] >= 2
  {
    assert b == b[..j] + [b[j]] + b[j + 1..];
    assert b[i] == b[..j][i] && b[..j][i] in multiset(b[..j]);
  }

  lemma {:induction false} OnceOnly(a: seq<Method>, m: Method)
    requires DistinctOffsets(a)
    ensures multiset(a)[m] <= 1
  {
    if a != [] {
      assert a == [a[0]] + a[1..];
      forall i, j | 0 <= i < j < |a[1..]| ensures a[1..][i].offset != a[1..][j].offset {
        assert a[i + 1].offset != a[j + 1].offset;
      }
      OnceOnly(a[1..], m);
      forall j | 0 <= j < |a[1..]| ensures a[1..][j] != a[0] {
        assert a[0].offset != a[j + 1].offset;
      }
    }
  }

  // ----- the two fit together -----

  function Listed(contract: Program, before: nat): (ms: seq<Method>)
    ensures |ms| == |contract|
  {
    seq(|contract|, k requires 0 <= k < |contract| => Method(contract[k].symbol, before + Start(contract, k)))
  }

  /** Breaks are in strictly increasing order from the first byte on, so they cut the script into sections. */
  lemma BreaksCut(ms: seq<Method>, s: Script)
    requires Acceptable(ms, s) && ms != []
    ensures var breaks := BreaksOf(SortByOffset(ms));
            && breaks[0].offset == 0
            && (forall i, j :: 0 <= i < j < |breaks| ==> breaks[i].offset < breaks[j].offset)
            && forall b :: b in breaks ==> Boundary(s, b.offset)
  {
    hide SortByOffset, Acceptable, Boundary;
    var sorted := SortByOffset(ms);
    SortSorts(ms);
    SameAcceptable(ms, sorted, s);
    assert |sorted| == |multiset(sorted)|;
    BreaksIncrease(sorted, s);
    FirstByte(sorted, s);
    forall b | b in BreaksOf(sorted) ensures Boundary(s, b.offset) {
      BreakBoundary(sorted, s, b);
    }
  }

  lemma BreaksIncrease(ms: seq<Method>, s: Script)
    requires Acceptable(ms, s) && Sorted(ms) && ms != []
    ensures forall i, j :: 0 <= i < j < |BreaksOf(ms)| ==> BreaksOf(ms)[i].offset < BreaksOf(ms)[j].offset
    ensures BreaksOf(ms)[0].offset == 0
  {
    hide Boundary;
  }

  /** If any method begins at an instruction, so does the script. */
  lemma FirstByte(ms: seq<Method>, s: Script)
    requires Acceptable(ms, s) && ms != []
    ensures Boundary(s, 0)
  {
    assert ms[0] in ms;
    var k :| 0 <= k < |s| && Offset(s, k) == ms[0].offset;
    assert Offset(s, 0) == 0;
  }

  lemma BreakBoundary(ms: seq<Method>, s: Script, b: Break)
    requires Acceptable(ms, s) && b in BreaksOf(ms) && Boundary(s, 0)
    ensures Boundary(s, b.offset)
  {
    hide Boundary;
    if b.offset != 0 {
      var j :| 0 <= j < |ms| && b == Named(ms)[j];
      assert ms[j] in ms;
    }
  }

  /**
   * The manifest of a build is accepted by the disassembler exactly when no contract routine is
   * empty; package and struct routines may be.
   */
  lemma ListedAcceptable(before: Script, contract: Program)
    ensures Acceptable(Listed(contract, ByteLen(before)), before + Code(contract))
            <==> forall f :: f in contract ==> f.routine.code != []
  {
    hide Acceptable, Code, ByteLen;
    if forall f :: f in contract ==> f.routine.code != [] {
      NonEmptyAccepted(before, contract);
    } else {
      var k :| 0 <= k < |contract| && contract[k].routine.code == [];
      EmptyRejected(before, contract, k);
    }
  }

  lemma NonEmptyAccepted(before: Script, contract: Program)
    requires forall f :: f in contract ==> f.routine.code != []
    ensures Acceptable(Listed(contract, ByteLen(before)), before + Code(contract))
  {
    hide Code, ByteLen, Boundary;
    var start := ByteLen(before);
    var ms := Listed(contract, start);
    forall i, j | 0 <= i < j < |ms| ensures ms[i].offset != ms[j].offset {
      StartsIncrease(contract, start, i, j);
    }
    forall m | m in ms ensures Boundary(before + Code(contract), m.offset) {
      var k :| 0 <= k < |ms| && ms[k] == m;
      assert contract[k] in contract;
      StartBoundary(before, contract, k);
    }
  }

  /** An empty routine begins where the next one does, or at the end of the script. */
  lemma EmptyRejected(before: Script, contract: Program, k: nat)
    requires k < |contract| && contract[k].routine.code == []
    ensures !Acceptable(Listed(contract, ByteLen(before)), before + Code(contract))
  {
    hide Code, Boundary, ByteLen, Start;
    var ms := Listed(contract, ByteLen(before));
    SameStart(contract, ByteLen(before), k);
    assert ms[k] in ms;
    if k + 1 < |contract| {
      assert ms[k].offset == ms[k + 1].offset;
    } else {
      EndStart(before, contract);
      EndNoBoundary(before + Code(contract));
    }
  }

  lemma SameStart(contract: Program, before: nat, k: nat)
    requires k < |contract| && contract[k].routine.code == []
    ensures before + Start(contract, k + 1) == before + Start(contract, k)
  {
    hide Code;
    StartStep(contract, k);
  }

  lemma EndStart(before: Script, contract: Program)
    ensures ByteLen(before) + Start(contract, |contract|) == ByteLen(before + Code(contract))
  {
    hide Code;
    assert contract[..|contract|] == contract;
    ByteLenAppend(before, Code(contract));
  }

  lemma EndNoBoundary(s: Script)
    ensures !Boundary(s, ByteLen(s))
  {
    assert s[..|s|] == s;
    forall k | 0 <= k < |s| ensures Offset(s, k) != ByteLen(s) {
      OffsetsIncrease(s, k, |s|);
    }
  }

  lemma {:induction false} StartsIncrease(contract: Program, before: nat, i: nat, j: nat)
    requires i < j < |contract| && forall f :: f in contract ==> f.routine.code != []
    ensures before + Start(contract, i) < before + Start(contract, j)
    decreases j
  {
    StartStep(contract, j - 1);
    assert contract[j - 1] in contract;
    SomeBytes(contract[j - 1].routine.code);
    if i < j - 1 {
      StartsIncrease(contract, before, i, j - 1);
    }
  }

  lemma SomeBytes(code: Script)
    requires code != []
    ensures ByteLen(code) > 0
  {
  }

  lemma StartBoundary(before: Script, contract: Program, k: nat)
    requires k < |contract| && contract[k].routine.code != []
    ensures Boundary(before + Code(contract), ByteLen(before) + Start(contract, k))
  {
    var head, tail := contract[..k], contract[k..];
    assert contract == head + tail;
    CodeAppend(head, tail);
    var s := before + Code(contract);
    var front := before + Code(head);
    assert s == front + Code(tail);
    assert Code(tail) == contract[k].routine.code + Code(tail[1..]);
    assert s[..|front|] == front;
    ByteLenAppend(before, Code(head));
    assert Offset(s, |front|) == ByteLen(before) + Start(contract, k);
  }

  /** End to end: the flattened bytes decode to the routines, and the manifest's offsets are accepted on them. */
  lemma ManifestAccepted(package: Program, structs: Program, contract: Program)
    requires forall i :: i in Code(package + structs + contract) ==> WellFormed(i)
    requires forall f :: f in contract ==> f.routine.code != []
    ensures var code := Code(package + structs + contract);
            && DecodeFrom(EncodeAll(code), 0) == Ok(code)
            && Acceptable(Listed(contract, ByteLen(Code(package + structs))), code)
  {
    var code := Code(package + structs + contract);
    DecodeScriptOfEncoding(code);
    CodeAppend(package + structs, contract);
    ListedAcceptable(Code(package + structs), contract);
  }
}
