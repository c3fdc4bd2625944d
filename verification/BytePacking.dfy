/** `infer_memory_objects` and `refine_memory_representations`: which groups of indexed slots may be
    packed into bytes, and the proof that a packed object never holds more than a byte. */
module BytePacking {
  import opened Words
  import opened Ir
  import opened Semantics
  import opened Execution
  import opened Blocks
  import opened Ssa
  import opened SsaNaming
  import opened SsaBuild
  import opened KnownBitsFacts
  import opened KnownBitsSweep
  import opened Dominators

  datatype AliasClass = ReadOnlyShared | Unique | Conservative

  datatype MemoryRepresentation = Scalarized | ContiguousStack | PackedBytes

  datatype MemoryObject = MemoryObject(slots: seq<nat>, alias_class: AliasClass, representation: MemoryRepresentation)

  // ----- memory objects -----

  function AccessSlots(i: RuntimeInstr): seq<nat> {
    if i.LoadIndex? || i.StoreIndex? then i.base_slots else []
  }

  /** The slots of an access, sorted and without repetitions. */
  function Normalized(p: RuntimeProgram, i: RuntimeInstr): seq<nat> {
    SortedBelow((set x | x in AccessSlots(i)), p.slots)
  }

  predicate Touches(i: RuntimeInstr, slots: seq<nat>) {
    exists x :: x in AccessSlots(i) && x in slots
  }

  predicate IsDynamic(i: RuntimeInstr)
    requires i.LoadIndex? || i.StoreIndex?
  {
    !(i.index.Imm? && i.index.imm < |i.base_slots|)
  }

  predicate Contains(objects: seq<seq<nat>>, k: nat, x: nat) {
    k < |objects| && x in objects[k]
  }

  /** No slot of object `k` belongs to another object. */
  ghost predicate IsUnique(objects: seq<seq<nat>>, k: nat)
    requires k < |objects|
  {
    forall x, j: nat :: x in objects[k] && Contains(objects, j, x) ==> j == k
  }

  ghost predicate IsWritten(p: RuntimeProgram, slots: seq<nat>) {
    exists i :: 0 <= i < |p.instrs| && p.instrs[i].StoreIndex? && Touches(p.instrs[i], slots)
  }

  ghost predicate IsDynamicallyIndexed(p: RuntimeProgram, slots: seq<nat>) {
    exists i :: 0 <= i < |p.instrs| && Touches(p.instrs[i], slots) && IsDynamic(p.instrs[i])
  }

  /** One object for each set of slots that some instruction indexes. */
  ghost predicate ObjectsOfProgram(p: RuntimeProgram, objects: seq<seq<nat>>, n: nat)
    requires n <= |p.instrs|
  {
    && (forall s :: s in objects <==> s != [] && HasAccess(p, s, n))
    && (forall j, k :: 0 <= j < k < |objects| ==> objects[j] != objects[k])
  }

  ghost predicate HasAccess(p: RuntimeProgram, s: seq<nat>, n: nat)
    requires n <= |p.instrs|
  {
    exists i :: 0 <= i < n && Normalized(p, p.instrs[i]) == s
  }

  method CollectObjects(p: RuntimeProgram) returns (objects: seq<seq<nat>>)
    ensures ObjectsOfProgram(p, objects, |p.instrs|)
  {
    objects := [];
    for i := 0 to |p.instrs|
      invariant ObjectsOfProgram(p, objects, i)
    {
      var normalized := Normalized(p, p.instrs[i]);
      hide Normalized;
      forall s: seq<nat>
        ensures HasAccess(p, s, i + 1) <==> HasAccess(p, s, i) || s == normalized
      {
        if HasAccess(p, s, i) {
          var j :| 0 <= j < i && Normalized(p, p.instrs[j]) == s;
          assert Normalized(p, p.instrs[j]) == s;
        }
      }
      if normalized != [] && normalized !in objects {
        objects := objects + [normalized];
      }
    }
  }

  /** `slot_membership`: how many objects a slot belongs to. */
  function Membership(objects: seq<seq<nat>>, x: nat): nat {
    if objects == [] then 0
    else Membership(objects[..|objects| - 1], x) + (if x in objects[|objects| - 1] then 1 else 0)
  }

  lemma {:induction false} MembershipOne(objects: seq<seq<nat>>, k: nat, x: nat)
    requires Contains(objects, k, x)
    ensures Membership(objects, x) >= 1
    ensures Membership(objects, x) == 1 <==> forall j: nat :: Contains(objects, j, x) ==> j == k
  {
    var front := objects[..|objects| - 1];
    MembershipNone(front, x);
    forall j: nat | j < |front|
      ensures Contains(objects, j, x) == Contains(front, j, x)
    {}
    if k < |front| {
      MembershipOne(front, k, x);
      assert Contains(objects, |front|, x) == (x in objects[|objects| - 1]);
    } else if Membership(front, x) > 0 {
      var j: nat :| Contains(front, j, x);
      assert Contains(objects, j, x);
    }
  }

  lemma {:induction false} MembershipNone(objects: seq<seq<nat>>, x: nat)
    ensures Membership(objects, x) == 0 <==> forall j: nat :: !Contains(objects, j, x)
  {
    if objects != [] {
      var front := objects[..|objects| - 1];
      MembershipNone(front, x);
      forall j: nat | j < |front|
        ensures Contains(objects, j, x) == Contains(front, j, x)
      {}
      assert Contains(objects, |front|, x) == (x in objects[|objects| - 1]);
    }
  }

  ghost predicate ObjectRight(p: RuntimeProgram, objects: seq<seq<nat>>, k: nat, memory: MemoryObject)
    requires k < |objects|
  {
    && memory.slots == objects[k]
    && memory.alias_class ==
      (if !IsWritten(p, objects[k]) then ReadOnlyShared else if IsUnique(objects, k) then Unique else Conservative)
    && memory.representation == (if IsDynamicallyIndexed(p, objects[k]) then ContiguousStack else Scalarized)
  }

  method ClassifyObject(p: RuntimeProgram, objects: seq<seq<nat>>, k: nat) returns (memory: MemoryObject)
    requires k < |objects|
    ensures ObjectRight(p, objects, k, memory)
  {
    var slots := objects[k];
    var unique := forall x | x in slots :: Membership(objects, x) == 1;
    forall x | x in slots
      ensures Contains(objects, k, x)
      ensures Membership(objects, x) == 1 <==> forall j: nat :: Contains(objects, j, x) ==> j == k
    {
      MembershipOne(objects, k, x);
    }
    assert unique <==> IsUnique(objects, k);
    var written, dynamic := false, false;
    for i := 0 to |p.instrs|
      invariant written <==> exists j :: 0 <= j < i && p.instrs[j].StoreIndex? && Touches(p.instrs[j], slots)
      invariant dynamic <==> exists j :: 0 <= j < i && Touches(p.instrs[j], slots) && IsDynamic(p.instrs[j])
    {
      if Touches(p.instrs[i], slots) {
        written := written || p.instrs[i].StoreIndex?;
        dynamic := dynamic || IsDynamic(p.instrs[i]);
      }
    }
    memory := MemoryObject(slots,
      if !written then ReadOnlyShared else if unique then Unique else Conservative,
      if dynamic then ContiguousStack else Scalarized);
  }

  method InferMemoryObjects(p: RuntimeProgram) returns (objects: seq<MemoryObject>, groups: seq<seq<nat>>)
    ensures ObjectsOfProgram(p, groups, |p.instrs|)
    ensures |objects| == |groups| && forall k :: 0 <= k < |groups| ==> ObjectRight(p, groups, k, objects[k])
  {
    var object_slots := CollectObjects(p);
    groups := object_slots;
    objects := [];
    for k := 0 to |object_slots|
      invariant |objects| == k && forall j :: 0 <= j < k ==> ObjectRight(p, groups, j, objects[j])
    {
      var memory := ClassifyObject(p, object_slots, k);
      objects := objects + [memory];
    }
  }

  // ----- byte facts -----

  predicate FitsByte(k: KnownBits) {
    And(k.zero, Not(0xff)) == Not(0xff)
  }

  /** The first definition of slot `x` among the first `i` instructions, with what is known about it, and
      whether there is a second one. */
  ghost predicate DefinitionRight(p: RuntimeProgram, n: Naming, facts: Facts, i: nat, x: nat,
      first: Option<(nat, KnownBits)>, again: bool)
    requires DefsTotal(p, n.defs)
  {
    && (first.None? ==> forall k :: 0 <= k < i ==> !WritesSlot(p, k, x))
    && (first.Some? ==>
         first.value.0 < i && WritesSlot(p, first.value.0, x)
           && first.value.1 == FactOf(facts, n.defs[(first.value.0, x)]))
    && (again <==> exists k :: 0 <= k < i && WritesSlot(p, k, x) && first.Some? && k != first.value.0)
  }

  ghost predicate DefinitionsRight(p: RuntimeProgram, n: Naming, facts: Facts, i: nat,
      first: seq<Option<(nat, KnownBits)>>, again: seq<bool>)
    requires DefsTotal(p, n.defs)
  {
    |first| == |again| == p.slots && forall x :: 0 <= x < p.slots ==>
      DefinitionRight(p, n, facts, i, x, first[x], again[x])
  }

  method CollectDefinitions(p: RuntimeProgram, n: Naming, facts: Facts)
      returns (first: seq<Option<(nat, KnownBits)>>, again: seq<bool>)
    requires DefsTotal(p, n.defs) && InRange(p)
    ensures DefinitionsRight(p, n, facts, |p.instrs|, first, again)
  {
    first := seq(p.slots, _ => None);
    again := seq(p.slots, _ => false);
    for i := 0 to |p.instrs|
      invariant DefinitionsRight(p, n, facts, i, first, again)
    {
      first, again := DefineInstr(p, n, facts, first, again, i);
    }
  }

  method DefineInstr(p: RuntimeProgram, n: Naming, facts: Facts, first: seq<Option<(nat, KnownBits)>>, again: seq<bool>,
      i: nat)
    returns (first': seq<Option<(nat, KnownBits)>>, again': seq<bool>)
    requires DefsTotal(p, n.defs) && InRange(p) && i < |p.instrs| && DefinitionsRight(p, n, facts, i, first, again)
    ensures DefinitionsRight(p, n, facts, i + 1, first', again')
  {
    assert InstrInRange(p, p.instrs[i]);
    var writes := SortedBelow((set x | x in WriteSlots(p.instrs[i])), p.slots);
    assert forall x: nat :: x in writes <==> WritesSlot(p, i, x);
    hide WritesSlot;
    hide WriteSlots;
    hide DefinitionRight;
    hide SortedBelow;
    hide DefsTotal;
    first', again' := first, again;
    assert writes[..0] == [];
    for k := 0 to |writes|
      invariant PartlyDefined(p, n, facts, i, writes[..k], first', again')
    {
      var x := writes[k];
      assert x in writes;
      assert x !in writes[..k];
      assert writes[..k + 1] == writes[..k] + [x];
      first', again' := DefineSlot(p, n, facts, first', again', i, writes[..k], x);
    }
    assert writes[..|writes|] == writes;
    forall x | 0 <= x < p.slots
      ensures DefinitionRight(p, n, facts, i + 1, x, first'[x], again'[x])
    {
      if x !in writes {
        DefineNone(p, n, facts, i, x, first'[x], again'[x]);
      }
    }
  }

  method DefineSlot(p: RuntimeProgram, n: Naming, facts: Facts, first: seq<Option<(nat, KnownBits)>>, again: seq<bool>,
      i: nat, ghost done: seq<nat>, x: nat)
    returns (first': seq<Option<(nat, KnownBits)>>, again': seq<bool>)
    requires DefsTotal(p, n.defs) && WritesSlot(p, i, x) && x < p.slots && x !in done
    requires PartlyDefined(p, n, facts, i, done, first, again)
    ensures PartlyDefined(p, n, facts, i, done + [x], first', again')
  {
    DefineOne(p, n, facts, i, x, first[x], again[x]);
    hide DefinitionRight;
    first', again' := first, again;
    if first[x].Some? {
      again' := again[x := true];
    } else {
      first' := first[x := Some((i, FactOf(facts, n.defs[(i, x)])))];
    }
  }

  ghost predicate PartlyDefined(p: RuntimeProgram, n: Naming, facts: Facts, i: nat, done: seq<nat>,
      first: seq<Option<(nat, KnownBits)>>, again: seq<bool>)
    requires DefsTotal(p, n.defs)
  {
    |first| == |again| == p.slots &&
    forall x :: 0 <= x < p.slots ==> DefinitionRight(p, n, facts, if x in done then i + 1 else i, x, first[x], again[x])
  }

  lemma DefineOne(p: RuntimeProgram, n: Naming, facts: Facts, i: nat, x: nat, first: Option<(nat, KnownBits)>,
      again: bool)
    requires DefsTotal(p, n.defs) && DefinitionRight(p, n, facts, i, x, first, again) && WritesSlot(p, i, x)
    ensures first.Some? ==> DefinitionRight(p, n, facts, i + 1, x, first, true)
    ensures first.None? ==> DefinitionRight(p, n, facts, i + 1, x, Some((i, FactOf(facts, n.defs[(i, x)]))), again)
  {
    hide WritesSlot;
  }

  lemma DefineNone(p: RuntimeProgram, n: Naming, facts: Facts, i: nat, x: nat, first: Option<(nat, KnownBits)>,
      again: bool)
    requires DefsTotal(p, n.defs) && DefinitionRight(p, n, facts, i, x, first, again) && !WritesSlot(p, i, x)
    ensures DefinitionRight(p, n, facts, i + 1, x, first, again)
  {
    hide WritesSlot;
  }

  /** All that the byte analysis looks up. */
  datatype ByteTables = ByteTables(facts: Facts, names: seq<Row>, dom: seq<set<nat>>,
      first: seq<Option<(nat, KnownBits)>>, again: seq<bool>)

  /** `dominates_instruction` */
  predicate DominatesInstr(g: BlockGraph, dom: seq<set<nat>>, definition: nat, usage: nat) {
    && definition < |g.block_of| && usage < |g.block_of|
    && if g.block_of[definition] == g.block_of[usage] then definition <= usage
       else g.block_of[usage] < |dom| && g.block_of[definition] in dom[g.block_of[usage]]
  }

  /** What is known about an operand of instruction `i`: the fact of its name, or, if that does not fit a
      byte, the fact of the only definition of the slot when that dominates the instruction. */
  function ByteFact(g: BlockGraph, t: ByteTables, i: nat, o: RuntimeOperand): KnownBits {
    match o
    case Imm(v) => Constant(v)
    case Slot(x) =>
      var here := if i < |t.names| then SlotFact(t.facts, t.names[i], x) else UNKNOWN;
      if FitsByte(here) || x >= |t.first| || x >= |t.again| || t.again[x] then here
      else match t.first[x]
        case Some(d) => if DominatesInstr(g, t.dom, d.0, i) then d.1 else here
        case None => here
  }

  predicate WriteIsByte(g: BlockGraph, t: ByteTables, i: nat, instr: RuntimeInstr, slots: seq<nat>) {
    match instr
    case Mov(dst, src) => dst in slots && FitsByte(ByteFact(g, t, i, src))
    case StoreIndex(base_slots, _, src, _) => base_slots == slots && FitsByte(ByteFact(g, t, i, src))
    case _ => false
  }

  predicate WritesAny(instr: RuntimeInstr, slots: seq<nat>) {
    exists x :: x in WriteSlots(instr) && x in slots
  }

  /** Every instruction that writes a slot of the object writes a byte. */
  ghost predicate WritesBytes(p: RuntimeProgram, g: BlockGraph, t: ByteTables, slots: seq<nat>) {
    forall i: nat :: i < |p.instrs| && WritesAny(p.instrs[i], slots) ==> WriteIsByte(g, t, i, p.instrs[i], slots)
  }

  ghost predicate RefinedRight(p: RuntimeProgram, g: BlockGraph, t: ByteTables, before: MemoryObject,
      after: MemoryObject)
  {
    && after.slots == before.slots && after.alias_class == before.alias_class
    && after.representation ==
      if before.representation == ContiguousStack && before.alias_class != Conservative
        && WritesBytes(p, g, t, before.slots)
      then PackedBytes else before.representation
  }

  method RefineObject(p: RuntimeProgram, g: BlockGraph, t: ByteTables, before: MemoryObject)
      returns (after: MemoryObject)
    ensures RefinedRight(p, g, t, before, after)
  {
    after := before;
    if before.representation != ContiguousStack || before.alias_class == Conservative {
      return;
    }
    for i := 0 to |p.instrs|
      invariant forall k: nat :: k < i && WritesAny(p.instrs[k], before.slots) ==>
        WriteIsByte(g, t, k, p.instrs[k], before.slots)
    {
      if WritesAny(p.instrs[i], before.slots) && !WriteIsByte(g, t, i, p.instrs[i], before.slots) {
        return;
      }
    }
    after := before.(representation := PackedBytes);
  }
}
