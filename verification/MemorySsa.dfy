/** `build_memory_ssa`: versions of memory objects.  An object gets its versions as a slot gets its names: by
    the same construction, on the program whose slots are the objects and whose instructions write the
    objects that a store touches. */
module MemorySsa {
  import opened Words
  import opened Ir
  import opened Semantics
  import opened Execution
  import opened Blocks
  import opened Ssa
  import opened SsaNaming
  import opened SsaBuild
  import opened KnownBitsFacts
  import opened KnownBitsSweep
  import opened BytePacking

  datatype AccessKind = Read | Write

  /** A version belongs to the object that is its slot; its identity is its index. */
  type MemoryVersion = SSAValue

  datatype MemoryPhi = MemoryPhi(block: nat, memory: nat, version: nat, inputs: seq<nat>)

  datatype MemoryAccess = MemoryAccess(instr_index: nat, memory: nat, kind: AccessKind, incoming: nat, outgoing: nat)

  datatype MemoryTables = MemoryTables(versions: seq<MemoryVersion>, phis: seq<MemoryPhi>, accesses: seq<MemoryAccess>)

  // ----- what consistent tables are -----

  predicate VersionFits(objects: nat, version: MemoryVersion) {
    version.slot < objects
  }

  predicate IsVersionOf(versions: seq<MemoryVersion>, v: nat, memory: nat) {
    v < |versions| && versions[v].slot == memory
  }

  predicate MemoryPhiFits(versions: seq<MemoryVersion>, blocks: nat, objects: nat, phi: MemoryPhi) {
    && phi.block < blocks && phi.memory < objects && phi.version < |versions|
    && versions[phi.version] == SSAValue(phi.memory, Phi(phi.block))
    && forall k: nat :: k < |phi.inputs| ==> IsVersionOf(versions, phi.inputs[k], phi.memory)
  }

  /** A read leaves the version alone, a write defines a new one. */
  predicate AccessFits(versions: seq<MemoryVersion>, access: MemoryAccess) {
    && IsVersionOf(versions, access.incoming, access.memory) && IsVersionOf(versions, access.outgoing, access.memory)
    && match access.kind
       case Read => access.incoming == access.outgoing
       case Write => versions[access.outgoing].def == Instr(access.instr_index)
  }

  ghost predicate AllVersionsFit(m: MemoryTables, objects: nat, n: nat)
    requires n <= |m.versions|
  {
    forall k: nat :: k < n ==> VersionFits(objects, m.versions[k])
  }

  ghost predicate AllMemoryPhisFit(m: MemoryTables, blocks: nat, objects: nat, n: nat)
    requires n <= |m.phis|
  {
    forall k: nat :: k < n ==> MemoryPhiFits(m.versions, blocks, objects, m.phis[k])
  }

  ghost predicate AllAccessesFit(m: MemoryTables, n: nat)
    requires n <= |m.accesses|
  {
    forall k: nat :: k < n ==> AccessFits(m.versions, m.accesses[k])
  }

  ghost predicate MemoryFits(m: MemoryTables, blocks: nat, objects: nat) {
    && AllVersionsFit(m, objects, |m.versions|) && AllMemoryPhisFit(m, blocks, objects, |m.phis|)
    && AllAccessesFit(m, |m.accesses|)
  }

  /** The memory part of `verify`. */
  method VerifyMemory(m: MemoryTables, blocks: nat, objects: nat) returns (ok: bool)
    ensures ok <==> MemoryFits(m, blocks, objects)
  {
    for k := 0 to |m.versions|
      invariant AllVersionsFit(m, objects, k)
    {
      if !VersionFits(objects, m.versions[k]) {
        return false;
      }
    }
    for k := 0 to |m.phis|
      invariant AllMemoryPhisFit(m, blocks, objects, k)
    {
      if !MemoryPhiFits(m.versions, blocks, objects, m.phis[k]) {
        return false;
      }
    }
    for k := 0 to |m.accesses|
      invariant AllAccessesFit(m, k)
    {
      if !AccessFits(m.versions, m.accesses[k]) {
        return false;
      }
    }
    return true;
  }

  // ----- the program of objects -----

  /** The objects, among the first `n`, that an instruction accesses, in order. */
  function Touched(i: RuntimeInstr, objects: seq<MemoryObject>, n: nat): (r: seq<nat>)
    requires n <= |objects|
    ensures forall k: nat :: k in r <==> k < n && Touches(i, objects[k].slots)
    ensures Increasing(r)
  {
    if n == 0 then []
    else
      var r := Touched(i, objects, n - 1);
      assert forall k :: 0 <= k < |r| ==> r[k] in r;
      if Touches(i, objects[n - 1].slots) then r + [n - 1] else r
  }

  /** The same control, and the accessed objects instead of slots. */
  function ObjectInstr(i: RuntimeInstr, objects: seq<MemoryObject>): RuntimeInstr {
    match i
    case Jump(target) => Jump(target)
    case JumpIfZero(_, target) => JumpIfCmpFalse(Eq, Imm(0), Imm(0), target)
    case JumpIfCmpFalse(_, _, _, target) => JumpIfCmpFalse(Eq, Imm(0), Imm(0), target)
    case Call(target) => Call(target)
    case Return => Return
    case Exit(_) => Exit(Imm(0))
    case StoreIndex(_, _, _, checked) => StoreIndex(Touched(i, objects, |objects|), Imm(0), Imm(0), checked)
    case _ => PrintConst("")
  }

  function ObjectProgram(p: RuntimeProgram, objects: seq<MemoryObject>): (q: RuntimeProgram)
    ensures |q.instrs| == |p.instrs|
  {
    RuntimeProgram(|objects|, seq(|p.instrs|, i requires 0 <= i < |p.instrs| => ObjectInstr(p.instrs[i], objects)))
  }

  lemma ObjectControl(p: RuntimeProgram, objects: seq<MemoryObject>, i: nat, j: nat)
    requires i < |p.instrs|
    ensures var q := ObjectProgram(p, objects);
      && IsControl(q.instrs[i]) == IsControl(p.instrs[i]) && TargetOf(q.instrs[i]) == TargetOf(p.instrs[i])
      && q.instrs[i].Call? == p.instrs[i].Call?
  {
    hide Touched;
  }

  lemma ObjectNext(p: RuntimeProgram, objects: seq<MemoryObject>, i: nat, j: nat)
    requires i < |p.instrs|
    ensures StaticNext(ObjectProgram(p, objects), i, j) <==> StaticNext(p, i, j)
  {
    hide Touched;
    if 0 < j <= |p.instrs| {
      ObjectControl(p, objects, j - 1, j);
    }
  }

  lemma ObjectLeaders(p: RuntimeProgram, objects: seq<MemoryObject>, i: nat)
    ensures IsLeader(ObjectProgram(p, objects), i) <==> IsLeader(p, i)
  {
    var q := ObjectProgram(p, objects);
    forall k: nat | k < |p.instrs|
      ensures IsControl(q.instrs[k]) == IsControl(p.instrs[k]) && TargetOf(q.instrs[k]) == TargetOf(p.instrs[k])
    {
      ObjectControl(p, objects, k, k);
    }
    hide ObjectProgram;
    hide IsControl;
    hide TargetOf;
    assert IsTarget(q, i, |p.instrs|) <==> IsTarget(p, i, |p.instrs|);
  }

  /** The graph of the program is that of its objects. */
  lemma ObjectGraph(p: RuntimeProgram, g: BlockGraph, objects: seq<MemoryObject>)
    requires g.Valid(p)
    ensures g.Valid(ObjectProgram(p, objects))
  {
    var q := ObjectProgram(p, objects);
    forall i: nat
      ensures IsLeader(q, i) <==> IsLeader(p, i)
    {
      ObjectLeaders(p, objects, i);
    }
    forall i: nat, j: nat | i < |p.instrs|
      ensures StaticNext(q, i, j) <==> StaticNext(p, i, j)
    {
      ObjectNext(p, objects, i, j);
    }
    hide ObjectProgram;
    hide IsLeader;
    hide StaticNext;
    forall b, c: nat | 0 <= b < |g.starts|
      ensures Edge(q, g.starts, b, c) <==> Edge(p, g.starts, b, c)
    {}
  }

  lemma ObjectsInRange(p: RuntimeProgram, objects: seq<MemoryObject>)
    requires InRange(p)
    ensures InRange(ObjectProgram(p, objects))
  {
    var q := ObjectProgram(p, objects);
    hide ObjectInstr;
    hide InstrInRange;
    forall i | 0 <= i < |q.instrs|
      ensures InstrInRange(q, q.instrs[i])
    {
      assert InstrInRange(p, p.instrs[i]);
      ObjectInRange(p, q, objects, p.instrs[i]);
    }
  }

  lemma ObjectInRange(p: RuntimeProgram, q: RuntimeProgram, objects: seq<MemoryObject>, i: RuntimeInstr)
    requires InstrInRange(p, i) && q.slots == |objects| && |q.instrs| == |p.instrs|
    ensures InstrInRange(q, ObjectInstr(i, objects))
  {
    ObjectReads(i, objects);
    hide Touched;
    hide ReadSlots;
    assert TargetOf(ObjectInstr(i, objects)) == TargetOf(i);
  }

  /** Only a store reads or writes objects, those it touches. */
  lemma ObjectReads(i: RuntimeInstr, objects: seq<MemoryObject>)
    ensures forall x :: x in ReadSlots(ObjectInstr(i, objects)) ==> x < |objects|
    ensures forall x :: x in WriteSlots(ObjectInstr(i, objects)) ==> x < |objects|
  {
    hide Touched;
    hide IsControl;
    hide TargetOf;
    var instr := ObjectInstr(i, objects);
    assert !i.StoreIndex? ==> DirectReads(instr) == [] && WriteSlots(instr) == [];
    assert forall x :: Slot(x) !in Operands(instr);
  }

  /** In the program of objects, an instruction writes the objects that its store touches. */
  lemma ObjectWrites(p: RuntimeProgram, objects: seq<MemoryObject>, i: nat, x: nat)
    requires i < |p.instrs|
    ensures WritesSlot(ObjectProgram(p, objects), i, x) <==>
      p.instrs[i].StoreIndex? && x < |objects| && Touches(p.instrs[i], objects[x].slots)
  {}

  // ----- the construction -----

  /** The access of instruction `i` to object `x`; `names` records the versions before each instruction. */
  function AccessTo(p: RuntimeProgram, n: Naming, names: seq<Row>, i: nat, x: nat): MemoryAccess
    requires i < |p.instrs| && i < |names| && x < |names[i]| && (p.instrs[i].StoreIndex? ==> (i, x) in n.defs)
  {
    if p.instrs[i].StoreIndex? then MemoryAccess(i, x, Write, names[i][x], n.defs[(i, x)])
    else MemoryAccess(i, x, Read, names[i][x], names[i][x])
  }

  /** Exactly the accesses of the first `k` instructions to the objects they touch. */
  ghost predicate AccessesRight(p: RuntimeProgram, objects: seq<MemoryObject>, n: Naming, names: seq<Row>, k: nat,
      accesses: seq<MemoryAccess>)
  {
    && (forall a :: a in accesses ==> a.instr_index < k && Accesses(p, objects, n, names, a.instr_index, a.memory, a))
    && (forall i: nat, x: nat :: i < k && i < |p.instrs| && x < |objects| && Touches(p.instrs[i], objects[x].slots) ==>
         AccessListed(p, objects, n, names, i, x, accesses))
  }

  ghost predicate Accesses(p: RuntimeProgram, objects: seq<MemoryObject>, n: Naming, names: seq<Row>, i: nat, x: nat,
      a: MemoryAccess)
  {
    && i < |p.instrs| && i < |names| && x < |objects| && x < |names[i]| && Touches(p.instrs[i], objects[x].slots)
    && (p.instrs[i].StoreIndex? ==> (i, x) in n.defs) && a == AccessTo(p, n, names, i, x)
  }

  ghost predicate AccessListed(p: RuntimeProgram, objects: seq<MemoryObject>, n: Naming, names: seq<Row>, i: nat,
      x: nat, accesses: seq<MemoryAccess>)
  {
    exists a :: a in accesses && Accesses(p, objects, n, names, i, x, a)
  }

  /** The versions are the stable names of the program of objects, with all their phis and exactly the
      accesses of the program. */
  ghost predicate MemoryRight(p: RuntimeProgram, g: BlockGraph, objects: seq<MemoryObject>, m: MemoryTables,
      n: Naming, preds: seq<seq<nat>>, names: seq<Row>)
  {
    var q := ObjectProgram(p, objects);
    if objects == [] then m == MemoryTables([], [], [])
    else
      && Stable(q, g, preds, n) && DefsTotal(q, n.defs) && NamesRecorded(q, g, n, names)
      && m.versions == n.values && MemoryPhisRight(n, preds, m.phis)
      && AccessesRight(p, objects, n, names, |p.instrs|, m.accesses)
  }

  /** `build_memory_ssa` */
  method BuildMemorySsa(p: RuntimeProgram, g: BlockGraph, objects: seq<MemoryObject>)
    returns (m: MemoryTables, n: Naming, preds: seq<seq<nat>>, names: seq<Row>)
    requires InRange(p) && g.Valid(p)
    ensures MemoryFits(m, |g.starts|, |objects|)
    ensures MemoryRight(p, g, objects, m, n, preds, names)
  {
    n, preds, names := Naming([], map[], map[], [], []), [], [];
    if objects == [] {
      return MemoryTables([], [], []), n, preds, names;
    }
    ObjectGraph(p, g, objects);
    ObjectsInRange(p, objects);
    var q := ObjectProgram(p, objects);
    n, preds := BuildValueSsa(q, g);
    names := RecordNames(q, g, n);
    hide ObjectProgram;
    hide Stable;
    var phis := MemoryPhis(q, g, n, preds);
    var accesses := CollectAccesses(p, g, objects, n, names);
    m := MemoryTables(n.values, phis, accesses);
    VersionsFit(q, g, n, m);
    hide NamesRecorded;
    hide AccessesRight;
  }

  lemma VersionsFit(q: RuntimeProgram, g: BlockGraph, n: Naming, m: MemoryTables)
    requires WellNamed(q, g, n) && InRange(q) && m.versions == n.values
    ensures AllVersionsFit(m, q.slots, |m.versions|)
  {
    forall k: nat | k < |n.values|
      ensures n.values[k].slot < q.slots
    {
      assert ListedValue(q, n.values[k], k, n.defs, n.phis);
      match n.values[k].def
      case Entry =>
      case Instr(i) => assert InstrInRange(q, q.instrs[i]);
      case Phi(b) =>
    }
  }

  /** The phi of the naming at its place, with its inputs. */
  ghost predicate MemoryPhiRight(n: Naming, preds: seq<seq<nat>>, phi: MemoryPhi) {
    && phi.block < |preds| && (phi.block, phi.memory) in n.phis
    && phi ==
      MemoryPhi(phi.block, phi.memory, n.phis[(phi.block, phi.memory)], PhiInputs(n, preds, phi.block, phi.memory))
  }

  function MemoryPlaces(phis: seq<MemoryPhi>): (places: Places)
    ensures |places| == |phis| && forall k: nat :: k < |phis| ==> places[k] == (phis[k].block, phis[k].memory)
  {
    seq(|phis|, k requires 0 <= k < |phis| => (phis[k].block, phis[k].memory))
  }

  /** Every phi of the naming, once. */
  ghost predicate MemoryPhisRight(n: Naming, preds: seq<seq<nat>>, phis: seq<MemoryPhi>) {
    ListsPhis(n, MemoryPlaces(phis)) && forall k: nat :: k < |phis| ==> MemoryPhiRight(n, preds, phis[k])
  }

  ghost predicate MemoryPhisMade(q: RuntimeProgram, n: Naming, preds: seq<seq<nat>>, places: Places,
      phis: seq<MemoryPhi>)
  {
    && |phis| <= |places|
    && forall k: nat :: k < |phis| ==>
      (phis[k].block, phis[k].memory) == places[k] && MemoryPhiRight(n, preds, phis[k]) &&
      MemoryPhiFits(n.values, |preds|, q.slots, phis[k])
  }

  method MemoryPhis(q: RuntimeProgram, g: BlockGraph, n: Naming, preds: seq<seq<nat>>) returns (phis: seq<MemoryPhi>)
    requires g.Valid(q) && WellNamed(q, g, n) && PredsOk(g, preds) && PhisWithin(n, |g.starts|)
    ensures forall k: nat :: k < |phis| ==> MemoryPhiFits(n.values, |g.starts|, q.slots, phis[k])
    ensures MemoryPhisRight(n, preds, phis)
  {
    assert PhisOk(q, n.values, n.phis);
    var places := SortedPhis(n, |g.starts|, q.slots);
    phis := [];
    for k := 0 to |places|
      invariant |phis| == k && MemoryPhisMade(q, n, preds, places, phis)
    {
      var (b, x) := places[k];
      assert (b, x) in places;
      MemoryPhiMade(q, g, n, preds, b, x);
      hide ListsPhis;
      hide WellNamed;
      hide BlockGraph.Valid;
      hide PredsOk;
      hide PhisOk;
      hide PhiInputs;
      hide MemoryPhiFits;
      phis := phis + [MemoryPhi(b, x, n.phis[(b, x)], PhiInputs(n, preds, b, x))];
    }
    assert MemoryPlaces(phis) == places;
    hide MemoryPhiRight;
  }

  lemma MemoryPhiMade(q: RuntimeProgram, g: BlockGraph, n: Naming, preds: seq<seq<nat>>, b: nat, x: nat)
    requires g.Valid(q) && WellNamed(q, g, n) && PredsOk(g, preds) && PhisWithin(n, |g.starts|) && (b, x) in n.phis
    ensures b < |preds| == |g.starts|
    ensures MemoryPhiFits(n.values, |preds|, q.slots, MemoryPhi(b, x, n.phis[(b, x)], PhiInputs(n, preds, b, x)))
  {
    assert PhisOk(q, n.values, n.phis);
    InputsOfObject(q, g, n, preds, b, x);
    hide WellNamed;
    hide BlockGraph.Valid;
    hide PhiInputs;
  }

  lemma InputsOfObject(q: RuntimeProgram, g: BlockGraph, n: Naming, preds: seq<seq<nat>>, b: nat, x: nat)
    requires g.Valid(q) && WellNamed(q, g, n) && PredsOk(g, preds) && b < |g.starts| && x < q.slots
    ensures forall k: nat :: k < |PhiInputs(n, preds, b, x)| ==> IsVersionOf(n.values, PhiInputs(n, preds, b, x)[k], x)
  {
    forall c: nat | c < |g.starts|
      ensures RowOk(q, n.values, n.outs[c])
    {}
    forall k: nat | k < |preds[b]|
      ensures preds[b][k] < |n.outs|
    {
      assert preds[b][k] in preds[b];
    }
    hide BlockGraph.Valid;
    hide PredsOk;
  }

  /** The accesses of every instruction, with the versions before and after. */
  method CollectAccesses(p: RuntimeProgram, g: BlockGraph, objects: seq<MemoryObject>, n: Naming, names: seq<Row>)
      returns (accesses: seq<MemoryAccess>)
    requires var q := ObjectProgram(p, objects);
      g.Valid(q) && WellNamed(q, g, n) && DefsTotal(q, n.defs) && NamesRecorded(q, g, n, names)
    ensures forall k: nat :: k < |accesses| ==> AccessFits(n.values, accesses[k])
    ensures AccessesRight(p, objects, n, names, |p.instrs|, accesses)
  {
    ghost var q := ObjectProgram(p, objects);
    accesses := [];
    for i := 0 to |p.instrs|
      invariant forall k: nat :: k < |accesses| ==> AccessFits(n.values, accesses[k])
      invariant AccessesRight(p, objects, n, names, i, accesses)
    {
      VersionsAt(q, g, n, names, i);
      assert DefsOk(q, n.values, n.defs);
      hide WellNamed;
      hide NamesRecorded;
      hide BlockGraph.Valid;
      var more := AccessesOf(p, objects, n, names, i);
      MoreAccesses(p, objects, n, names, i, accesses, more);
      hide AccessFits;
      hide AccessesRight;
      accesses := accesses + more;
    }
  }

  lemma MoreAccesses(p: RuntimeProgram, objects: seq<MemoryObject>, n: Naming, names: seq<Row>, i: nat,
      accesses: seq<MemoryAccess>, more: seq<MemoryAccess>)
    requires AccessesRight(p, objects, n, names, i, accesses) && i < |p.instrs|
    requires forall a :: a in more ==> a.instr_index == i && Accesses(p, objects, n, names, i, a.memory, a)
    requires forall x: nat :: x < |objects| && Touches(p.instrs[i], objects[x].slots) ==>
      AccessListed(p, objects, n, names, i, x, more)
    ensures AccessesRight(p, objects, n, names, i + 1, accesses + more)
  {
    hide Accesses;
    hide Touches;
    forall j: nat, x: nat | j < i + 1 && x < |objects| && Touches(p.instrs[j], objects[x].slots)
      ensures AccessListed(p, objects, n, names, j, x, accesses + more)
    {
      var list := if j < i then accesses else more;
      assert AccessListed(p, objects, n, names, j, x, list);
      var a :| a in list && Accesses(p, objects, n, names, j, x, a);
      assert a in accesses + more;
    }
  }

  lemma VersionsAt(q: RuntimeProgram, g: BlockGraph, n: Naming, names: seq<Row>, i: nat)
    requires g.Valid(q) && WellNamed(q, g, n) && DefsTotal(q, n.defs) && NamesRecorded(q, g, n, names) && i < |q.instrs|
    ensures i < |names| && RowOk(q, n.values, names[i])
  {
    var b := g.block_of[i];
    assert names[i] == NameAt(q, g, n, i);
    assert RowOk(q, n.values, n.ins[b]);
    RowAtOk(q, n, n.ins[b], g.starts[b], i);
  }

  method AccessesOf(p: RuntimeProgram, objects: seq<MemoryObject>, n: Naming, names: seq<Row>, i: nat)
      returns (accesses: seq<MemoryAccess>)
    requires i < |p.instrs| && i < |names|
    requires RowOk(ObjectProgram(p, objects), n.values, names[i]) && DefsOk(ObjectProgram(p, objects), n.values, n.defs)
    ensures forall k: nat :: k < |accesses| ==> AccessFits(n.values, accesses[k])
    ensures forall a :: a in accesses ==> a.instr_index == i && Accesses(p, objects, n, names, i, a.memory, a)
    ensures forall x: nat :: x < |objects| && Touches(p.instrs[i], objects[x].slots) ==>
      AccessListed(p, objects, n, names, i, x, accesses)
  {
    accesses := [];
    var touched := Touched(p.instrs[i], objects, |objects|);
    for t := 0 to |touched|
      invariant forall k: nat :: k < |accesses| ==> AccessFits(n.values, accesses[k])
      invariant forall a :: a in accesses ==> a.instr_index == i && Accesses(p, objects, n, names, i, a.memory, a)
      invariant forall k: nat :: k < t ==> AccessListed(p, objects, n, names, i, touched[k], accesses)
    {
      var x := touched[t];
      assert x in touched;
      AccessRight(p, objects, n, names, i, x);
      var access := AccessTo(p, n, names, i, x);
      hide AccessTo;
      hide Accesses;
      hide AccessFits;
      ListedMore(p, objects, n, names, i, touched[..t], accesses, access);
      accesses := accesses + [access];
      assert access in accesses;
    }
    forall x: nat | x < |objects| && Touches(p.instrs[i], objects[x].slots)
      ensures AccessListed(p, objects, n, names, i, x, accesses)
    {
      assert x in touched;
    }
  }

  lemma ListedMore(p: RuntimeProgram, objects: seq<MemoryObject>, n: Naming, names: seq<Row>, i: nat, done: seq<nat>,
      accesses: seq<MemoryAccess>, access: MemoryAccess)
    requires forall k: nat :: k < |done| ==> AccessListed(p, objects, n, names, i, done[k], accesses)
    ensures forall k: nat :: k < |done| ==> AccessListed(p, objects, n, names, i, done[k], accesses + [access])
  {
    hide Accesses;
    forall k: nat | k < |done|
      ensures AccessListed(p, objects, n, names, i, done[k], accesses + [access])
    {
      var a :| a in accesses && Accesses(p, objects, n, names, i, done[k], a);
      assert a in accesses + [access];
    }
  }

  lemma AccessRight(p: RuntimeProgram, objects: seq<MemoryObject>, n: Naming, names: seq<Row>, i: nat, x: nat)
    requires i < |p.instrs| && i < |names| && x < |objects| && Touches(p.instrs[i], objects[x].slots)
    requires RowOk(ObjectProgram(p, objects), n.values, names[i]) && DefsOk(ObjectProgram(p, objects), n.values, n.defs)
    ensures x < |names[i]| && (p.instrs[i].StoreIndex? ==> (i, x) in n.defs)
    ensures Accesses(p, objects, n, names, i, x, AccessTo(p, n, names, i, x))
      && AccessFits(n.values, AccessTo(p, n, names, i, x))
  {
    ObjectWrites(p, objects, i, x);
    hide ObjectInstr;
    hide Touches;
  }

  // ----- what a version says on a run -----

  /** The last store to object `x` that the first `k` steps of the run have executed. */
  ghost function LastStore(w: World, p: RuntimeProgram, objects: seq<MemoryObject>, f: Frame, k: nat,
      x: nat): Option<nat>
    requires x < |objects|
  {
    if k == 0 then None
    else
      var s := Run(w, p, Start(f), k - 1);
      if s.status == Running && Run(w, p, Start(f), k).status == Running && StoresTo(p, objects, s.pc, x) then
        Some(s.pc)
      else LastStore(w, p, objects, f, k - 1, x)
  }

  predicate StoresTo(p: RuntimeProgram, objects: seq<MemoryObject>, i: nat, x: nat)
    requires x < |objects|
  {
    i < |p.instrs| && p.instrs[i].StoreIndex? && Touches(p.instrs[i], objects[x].slots)
  }

  lemma LastStoreStep(w: World, p: RuntimeProgram, objects: seq<MemoryObject>, f: Frame, k: nat, x: nat)
    requires k > 0 && x < |objects|
    ensures var s := Run(w, p, Start(f), k - 1);
      LastStore(w, p, objects, f, k, x) ==
        if s.status == Running && Run(w, p, Start(f), k).status == Running && StoresTo(p, objects, s.pc, x) then
          Some(s.pc)
        else LastStore(w, p, objects, f, k - 1, x)
  {
    hide Run;
    hide StoresTo;
  }

  lemma StoresAreWrites(p: RuntimeProgram, objects: seq<MemoryObject>, i: nat, x: nat)
    ensures WritesSlot(ObjectProgram(p, objects), i, x) <==> x < |objects| && StoresTo(p, objects, i, x)
  {
    if i < |p.instrs| {
      ObjectWrites(p, objects, i, x);
    }
    hide ObjectInstr;
    hide Touches;
  }

  /** The run last came to instruction `at` with step `j`. */
  ghost predicate LastVisit(w: World, p: RuntimeProgram, f: Frame, at: nat, j: nat, k: nat) {
    && j <= k && Run(w, p, Start(f), j).status == Running && Run(w, p, Start(f), j).pc == at
    && forall m :: j < m <= k ==> Run(w, p, Start(f), m).pc != at
  }

  /** The version of object `x` that the instruction before step `j` left tells the last store. */
  ghost predicate LeftTells(w: World, p: RuntimeProgram, g: BlockGraph, preds: seq<seq<nat>>,
      objects: seq<MemoryObject>, n: Naming, f: Frame, j: nat, c: nat, x: nat)
    requires g.Cuts(p) && DefsTotal(ObjectProgram(p, objects), n.defs) && |n.ins| == |n.outs| == |g.starts|
    requires x < |objects| && j > 0 && c < |preds|
  {
    var i := Run(w, p, Start(f), j - 1).pc;
    i < |p.instrs| && x < |NameAt(ObjectProgram(p, objects), g, n, i)| && x < |n.outs[g.block_of[i]]| &&
    var u := n.outs[g.block_of[i]][x];
    u in PhiInputs(n, preds, c, x) && u < |n.values| &&
    match n.values[u].def
    case Entry => LastStore(w, p, objects, f, j, x) == None
    case Instr(d) => LastStore(w, p, objects, f, j, x) == Some(d)
    case Phi(_) =>
      && u == NameAt(ObjectProgram(p, objects), g, n, i)[x]
      && LastStore(w, p, objects, f, j, x) == LastStore(w, p, objects, f, j - 1, x)
  }

  /** Since step `j`, with which the run last came to block `c`, nothing has been stored to object `x`. */
  ghost predicate SinceVisit(w: World, p: RuntimeProgram, g: BlockGraph, preds: seq<seq<nat>>,
      objects: seq<MemoryObject>, n: Naming, f: Frame, j: nat, k: nat, c: nat, x: nat)
    requires g.Cuts(p) && DefsTotal(ObjectProgram(p, objects), n.defs) && |n.ins| == |n.outs| == |g.starts|
    requires x < |objects| && |preds| == |g.starts|
  {
    && c < |g.starts| && LastVisit(w, p, f, g.starts[c], j, k)
    && LastStore(w, p, objects, f, k, x) == LastStore(w, p, objects, f, j, x)
    && (j > 0 ==> LeftTells(w, p, g, preds, objects, n, f, j, c, x))
  }

  /** What version `v` of object `x` says after `k` steps.  The version of a phi says what the version said
      that the predecessor left when its block was last entered. */
  ghost predicate Tells(w: World, p: RuntimeProgram, g: BlockGraph, preds: seq<seq<nat>>,
      objects: seq<MemoryObject>, n: Naming, f: Frame, k: nat, x: nat, v: nat)
    requires g.Cuts(p) && DefsTotal(ObjectProgram(p, objects), n.defs) && |n.ins| == |n.outs| == |g.starts|
    requires x < |objects| && |preds| == |g.starts|
  {
    v < |n.values| &&
    match n.values[v].def
    case Entry => LastStore(w, p, objects, f, k, x) == None
    case Instr(i) => LastStore(w, p, objects, f, k, x) == Some(i)
    case Phi(c) => exists j: nat :: SinceVisit(w, p, g, preds, objects, n, f, j, k, c, x)
  }

  lemma StableShape(p: RuntimeProgram, g: BlockGraph, preds: seq<seq<nat>>, objects: seq<MemoryObject>, n: Naming)
    requires g.Valid(p) && Stable(ObjectProgram(p, objects), g, preds, n)
    ensures DefsTotal(ObjectProgram(p, objects), n.defs) && |n.ins| == |n.outs| == |g.starts| == |preds|
    ensures g.Cuts(p) && g.starts[0] == 0
  {
    assert StableBlock(ObjectProgram(p, objects), g, preds, n, 0);
  }

  lemma TellsAtStart(w: World, p: RuntimeProgram, g: BlockGraph, preds: seq<seq<nat>>, objects: seq<MemoryObject>,
      n: Naming, f: Frame, x: nat)
    requires g.Valid(p) && Stable(ObjectProgram(p, objects), g, preds, n) && x < |objects| && |p.instrs| > 0
    ensures DefsTotal(ObjectProgram(p, objects), n.defs) && |n.ins| == |n.outs| == |g.starts| == |preds|
    ensures x < |NameAt(ObjectProgram(p, objects), g, n, 0)|
    ensures Tells(w, p, g, preds, objects, n, f, 0, x, NameAt(ObjectProgram(p, objects), g, n, 0)[x])
  {
    var q := ObjectProgram(p, objects);
    StableShape(p, g, preds, objects, n);
    FirstName(q, g, preds, n, x);
    var v := NameAt(q, g, n, 0)[x];
    hide Stable;
    hide NameAt;
    hide ObjectProgram;
    assert LastStore(w, p, objects, f, 0, x) == None;
    if n.values[v].def.Phi? {
      assert LastVisit(w, p, f, g.starts[0], 0, 0);
      assert SinceVisit(w, p, g, preds, objects, n, f, 0, 0, 0, x);
    }
  }

  lemma LastStoreKept(w: World, p: RuntimeProgram, objects: seq<MemoryObject>, f: Frame, k: nat, x: nat)
    requires k > 0 && x < |objects|
    requires Run(w, p, Start(f), k - 1).status == Running && Run(w, p, Start(f), k).status == Running
    ensures var i := Run(w, p, Start(f), k - 1).pc;
      LastStore(w, p, objects, f, k, x) ==
        if WritesSlot(ObjectProgram(p, objects), i, x) then Some(i) else LastStore(w, p, objects, f, k - 1, x)
  {
    LastStoreStep(w, p, objects, f, k, x);
    StoresAreWrites(p, objects, Run(w, p, Start(f), k - 1).pc, x);
    hide Run;
    hide LastStore;
    hide StoresTo;
    hide WritesSlot;
    hide ObjectProgram;
  }

  /** The version left by a step tells the last store, if the version before it did. */
  lemma StepLeaves(w: World, p: RuntimeProgram, g: BlockGraph, preds: seq<seq<nat>>, objects: seq<MemoryObject>,
      n: Naming, f: Frame, k: nat, x: nat)
    requires g.Valid(p) && Stable(ObjectProgram(p, objects), g, preds, n) && x < |objects| && k > 0
    requires Run(w, p, Start(f), k - 1).status == Running && Run(w, p, Start(f), k).status == Running
    requires var i, j := Run(w, p, Start(f), k - 1).pc, Run(w, p, Start(f), k).pc;
      i < |p.instrs| && j < |p.instrs| && StaticNext(p, i, j)
    requires DefsTotal(ObjectProgram(p, objects), n.defs) && |n.ins| == |n.outs| == |g.starts| == |preds|
    requires x < |NameAt(ObjectProgram(p, objects), g, n, Run(w, p, Start(f), k - 1).pc)|
    requires Tells(w, p, g, preds, objects, n, f, k - 1, x,
      NameAt(ObjectProgram(p, objects), g, n, Run(w, p, Start(f), k - 1).pc)[x])
    ensures var j := Run(w, p, Start(f), k).pc;
      j == g.starts[g.block_of[j]] ==> LeftTells(w, p, g, preds, objects, n, f, k, g.block_of[j], x)
  {
    var q, i, j := ObjectProgram(p, objects), Run(w, p, Start(f), k - 1).pc, Run(w, p, Start(f), k).pc;
    LastStoreKept(w, p, objects, f, k, x);
    ObjectNext(p, objects, i, j);
    NextName(q, g, preds, n, i, j, x);
    hide Run;
    hide LastStore;
    hide Stable;
    hide NameAt;
    hide ObjectProgram;
    hide StaticNext;
    hide WritesSlot;
    hide PhiInputs;
    hide SinceVisit;
  }

  /** A version keeps telling the last store while nothing is stored and its phi, if it is one, not entered. */
  lemma TellsLonger(w: World, p: RuntimeProgram, g: BlockGraph, preds: seq<seq<nat>>, objects: seq<MemoryObject>,
      n: Naming, f: Frame, k: nat, x: nat, v: nat)
    requires g.Cuts(p) && DefsTotal(ObjectProgram(p, objects), n.defs) && |n.ins| == |n.outs| == |g.starts|
    requires x < |objects| && |preds| == |g.starts| && k > 0 && Tells(w, p, g, preds, objects, n, f, k - 1, x, v)
    requires LastStore(w, p, objects, f, k, x) == LastStore(w, p, objects, f, k - 1, x)
    requires forall c: nat :: n.values[v].def == Phi(c) && c < |g.starts| ==> Run(w, p, Start(f), k).pc != g.starts[c]
    ensures Tells(w, p, g, preds, objects, n, f, k, x, v)
  {
    hide Run;
    hide LastStore;
    hide ObjectProgram;
    hide LeftTells;
    if n.values[v].def.Phi? {
      var c := n.values[v].def.block;
      var m: nat :| SinceVisit(w, p, g, preds, objects, n, f, m, k - 1, c, x);
      assert SinceVisit(w, p, g, preds, objects, n, f, m, k, c, x);
    }
  }

  lemma TellsOnEntry(w: World, p: RuntimeProgram, g: BlockGraph, preds: seq<seq<nat>>, objects: seq<MemoryObject>,
      n: Naming, f: Frame, k: nat, c: nat, x: nat, v: nat)
    requires g.Cuts(p) && DefsTotal(ObjectProgram(p, objects), n.defs) && |n.ins| == |n.outs| == |g.starts|
    requires x < |objects| && |preds| == |g.starts| && k > 0 && v < |n.values| && n.values[v].def == Phi(c)
    requires c < |g.starts| && Run(w, p, Start(f), k).status == Running && Run(w, p, Start(f), k).pc == g.starts[c]
    requires LeftTells(w, p, g, preds, objects, n, f, k, c, x)
    ensures Tells(w, p, g, preds, objects, n, f, k, x, v)
  {
    hide Run;
    hide LastStore;
    hide LeftTells;
    assert SinceVisit(w, p, g, preds, objects, n, f, k, k, c, x);
  }

  lemma TellsNext(w: World, p: RuntimeProgram, g: BlockGraph, preds: seq<seq<nat>>, objects: seq<MemoryObject>,
      n: Naming, f: Frame, k: nat, x: nat)
    requires g.Valid(p) && Stable(ObjectProgram(p, objects), g, preds, n) && x < |objects| && k > 0
    requires Run(w, p, Start(f), k - 1).status == Running && Run(w, p, Start(f), k).status == Running
    requires var i, j := Run(w, p, Start(f), k - 1).pc, Run(w, p, Start(f), k).pc;
      i < |p.instrs| && j < |p.instrs| && StaticNext(p, i, j)
    requires DefsTotal(ObjectProgram(p, objects), n.defs) && |n.ins| == |n.outs| == |g.starts| == |preds|
    requires x < |NameAt(ObjectProgram(p, objects), g, n, Run(w, p, Start(f), k - 1).pc)|
    requires Tells(w, p, g, preds, objects, n, f, k - 1, x,
      NameAt(ObjectProgram(p, objects), g, n, Run(w, p, Start(f), k - 1).pc)[x])
    ensures x < |NameAt(ObjectProgram(p, objects), g, n, Run(w, p, Start(f), k).pc)|
    ensures Tells(w, p, g, preds, objects, n, f, k, x,
      NameAt(ObjectProgram(p, objects), g, n, Run(w, p, Start(f), k).pc)[x])
  {
    var q, i, j := ObjectProgram(p, objects), Run(w, p, Start(f), k - 1).pc, Run(w, p, Start(f), k).pc;
    LastStoreKept(w, p, objects, f, k, x);
    StepLeaves(w, p, g, preds, objects, n, f, k, x);
    ObjectNext(p, objects, i, j);
    NextName(q, g, preds, n, i, j, x);
    BlockOfStart(g, p, j);
    hide Run;
    hide LastStore;
    hide Stable;
    hide ObjectProgram;
    hide StaticNext;
    hide WritesSlot;
    hide LeftTells;
    hide PhiInputs;
    hide SinceVisit;
    var u, v := NameAt(q, g, n, i)[x], NameAt(q, g, n, j)[x];
    hide NameAt;
    if j == g.starts[g.block_of[j]] && n.values[v].def == Phi(g.block_of[j]) {
      TellsOnEntry(w, p, g, preds, objects, n, f, k, g.block_of[j], x, v);
    } else if !WritesSlot(q, i, x) {
      TellsLonger(w, p, g, preds, objects, n, f, k, x, v);
    }
  }

  lemma BlockOfStart(g: BlockGraph, p: RuntimeProgram, i: nat)
    requires g.Cuts(p) && i < |p.instrs|
    ensures forall c :: 0 <= c < |g.starts| && g.starts[c] == i ==> g.block_of[i] == c
  {
    forall c | 0 <= c < |g.starts| && g.starts[c] == i
      ensures g.block_of[i] == c
    {
      BlockNonempty(g, p, c);
    }
  }

  /** For stable versions, on every run, whenever an instruction is about to execute, the version recorded
      for an object tells its last store. */
  lemma {:induction false} VersionsRightOnRuns(w: World, p: RuntimeProgram, g: BlockGraph, preds: seq<seq<nat>>,
      objects: seq<MemoryObject>, n: Naming, f: Frame, k: nat, x: nat)
    requires g.Valid(p) && Stable(ObjectProgram(p, objects), g, preds, n) && x < |objects|
    requires var s := Run(w, p, Start(f), k); s.status == Running && s.pc < |p.instrs|
    ensures DefsTotal(ObjectProgram(p, objects), n.defs) && |n.ins| == |n.outs| == |g.starts| == |preds|
    ensures x < |NameAt(ObjectProgram(p, objects), g, n, Run(w, p, Start(f), k).pc)|
    ensures Tells(w, p, g, preds, objects, n, f, k, x,
      NameAt(ObjectProgram(p, objects), g, n, Run(w, p, Start(f), k).pc)[x])
  {
    StableShape(p, g, preds, objects, n);
    hide Stable;
    hide Tells;
    hide NameAt;
    hide ObjectProgram;
    if k == 0 {
      TellsAtStart(w, p, g, preds, objects, n, f, x);
    } else {
      RunStack(w, p, f, k - 1);
      StepFollows(w, p, Run(w, p, Start(f), k - 1));
      StillRunning(w, p, f, k);
      hide Step;
      hide StaticNext;
      VersionsRightOnRuns(w, p, g, preds, objects, n, f, k - 1, x);
      TellsNext(w, p, g, preds, objects, n, f, k, x);
    }
  }

  lemma StillRunning(w: World, p: RuntimeProgram, f: Frame, k: nat)
    requires k > 0 && Run(w, p, Start(f), k).status == Running
    ensures Run(w, p, Start(f), k - 1).status == Running && Run(w, p, Start(f), k - 1).pc < |p.instrs|
    ensures Run(w, p, Start(f), k) == Step(w, p, Run(w, p, Start(f), k - 1))
  {
    var s := Run(w, p, Start(f), k - 1);
    assert Run(w, p, Start(f), k) == Step(w, p, s);
    hide StepAt;
    hide Run;
  }
}
