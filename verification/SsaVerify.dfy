/** `RuntimeSSAProgram`: putting the pieces of `lower` together, and its consistency test `verify`. */
module SsaVerify {
  import opened Words
  import opened Ir
  import opened Semantics
  import opened Execution
  import opened Blocks
  import opened Permutations
  import opened Ssa
  import opened SsaNaming
  import opened SsaBuild
  import opened KnownBitsFacts
  import opened KnownBitsSweep
  import opened BytePacking
  import opened BytePackingCorrectness
  import opened DemandedBits
  import opened Narrowing
  import opened MemorySsa

  datatype SsaBlock = SsaBlock(id: nat, instrs: seq<RuntimeInstr>, instr_indices: seq<nat>, predecessors: seq<nat>,
      successors: seq<nat>)

  datatype SsaPhi = SsaPhi(block: nat, slot: nat, value: nat, inputs: seq<nat>)

  datatype SsaUse = SsaUse(slot: nat, value: nat)

  datatype SsaInstruction = SsaInstruction(instr_index: nat, read_uses: seq<SsaUse>,
      write_uses: seq<SsaUse>)

  datatype SsaProgram = SsaProgram(slot_count: nat, blocks: seq<SsaBlock>, objects: seq<MemoryObject>,
      values: seq<SSAValue>, phis: seq<SsaPhi>, known_bits: Facts, demanded_bits: Demand,
      instructions: seq<SsaInstruction>, memory: MemoryTables)

  // ----- what a consistent program is -----

  function AllIndices(blocks: seq<SsaBlock>): seq<nat> {
    if blocks == [] then [] else AllIndices(blocks[..|blocks| - 1]) + blocks[|blocks| - 1].instr_indices
  }

  /** There are instructions, and every one of them is in exactly one place of one block. */
  ghost predicate CoversOnce(blocks: seq<SsaBlock>, count: nat) {
    count > 0 && IsPermutation(AllIndices(blocks), count)
  }

  predicate AllBelow(s: seq<nat>, n: nat) {
    forall i: nat :: i < |s| ==> s[i] < n
  }

  predicate BlockFits(count: nat, block: SsaBlock, b: nat) {
    && block.id == b && |block.instrs| == |block.instr_indices|
    && AllBelow(block.successors, count) && AllBelow(block.predecessors, count)
  }

  predicate PhiFits(values: seq<SSAValue>, blocks: nat, slots: nat, phi: SsaPhi) {
    && phi.block < blocks && phi.slot < slots && phi.value < |values|
    && values[phi.value] == SSAValue(phi.slot, Phi(phi.block))
    && AllBelow(phi.inputs, |values|)
  }

  predicate UsesFit(values: seq<SSAValue>, uses: seq<SsaUse>) {
    forall k: nat :: k < |uses| ==> UseFits(values, uses[k])
  }

  predicate UseFits(values: seq<SSAValue>, use: SsaUse) {
    use.value < |values| && values[use.value].slot == use.slot
  }

  predicate InstructionFits(values: seq<SSAValue>, instruction: SsaInstruction) {
    UsesFit(values, instruction.read_uses) && UsesFit(values, instruction.write_uses)
  }

  ghost predicate AllBlocksOk(blocks: seq<SsaBlock>, n: nat)
    requires n <= |blocks|
  {
    forall b: nat :: b < n ==> BlockFits(|blocks|, blocks[b], b)
  }

  ghost predicate AllPhisOk(l: SsaProgram, n: nat)
    requires n <= |l.phis|
  {
    forall k: nat :: k < n ==> PhiFits(l.values, |l.blocks|, l.slot_count, l.phis[k])
  }

  ghost predicate AllInstructionsOk(l: SsaProgram, n: nat)
    requires n <= |l.instructions|
  {
    forall k: nat :: k < n ==> InstructionFits(l.values, l.instructions[k])
  }

  ghost predicate WellBuilt(l: SsaProgram, count: nat) {
    && AllBlocksOk(l.blocks, |l.blocks|) && CoversOnce(l.blocks, count)
    && AllPhisOk(l, |l.phis|) && |l.known_bits| == |l.values| && |l.demanded_bits| == |l.values|
    && AllInstructionsOk(l, |l.instructions|) && MemoryFits(l.memory, |l.blocks|, |l.objects|)
  }

  // ----- `verify` -----

  /** `verify`: blocks, values, phis, facts, instruction records and memory versions. */
  method Verify(l: SsaProgram, expected_instr_count: nat) returns (ok: bool)
    ensures ok <==> WellBuilt(l, expected_instr_count)
  {
    if l.blocks == [] && expected_instr_count != 0 {
      assert AllIndices(l.blocks) == [];
      assert 0 in AllIndices(l.blocks) <==> false;
      return false;
    }
    for b := 0 to |l.blocks|
      invariant AllBlocksOk(l.blocks, b)
    {
      if !BlockFits(|l.blocks|, l.blocks[b], b) {
        return false;
      }
    }
    var covered := Coverage(l.blocks, expected_instr_count);
    if !covered {
      return false;
    }
    for k := 0 to |l.phis|
      invariant AllPhisOk(l, k)
    {
      if !PhiFits(l.values, |l.blocks|, l.slot_count, l.phis[k]) {
        return false;
      }
    }
    if |l.known_bits| != |l.values| || |l.demanded_bits| != |l.values| {
      return false;
    }
    for k := 0 to |l.instructions|
      invariant AllInstructionsOk(l, k)
    {
      if !InstructionFits(l.values, l.instructions[k]) {
        return false;
      }
    }
    ok := VerifyMemory(l.memory, |l.blocks|, |l.objects|);
  }

  /** The covered indices: none twice, as many as there are instructions, the first 0 and the last one
      less than their number. */
  method Coverage(blocks: seq<SsaBlock>, count: nat) returns (ok: bool)
    ensures ok <==> CoversOnce(blocks, count)
  {
    var covered: set<nat> := {};
    assert blocks[..0] == [];
    for b := 0 to |blocks|
      invariant Collected(covered, AllIndices(blocks[..b]))
    {
      var fits;
      ghost var before := AllIndices(blocks[..b]);
      assert AllIndices(blocks[..b + 1]) == before + blocks[b].instr_indices by {
        assert blocks[..b + 1][..b] == blocks[..b];
      }
      covered, fits := CoverBlock(covered, blocks[b].instr_indices, before);
      if !fits {
        IndicesPrefix(blocks, b + 1);
        return false;
      }
    }
    assert blocks[..|blocks|] == blocks;
    var all := FirstAndLast(covered, count);
    CoveredAll(covered, AllIndices(blocks), count);
    return all;
  }

  ghost predicate Collected(covered: set<nat>, indices: seq<nat>) {
    Distinct(indices) && |covered| == |indices| && forall i :: i in covered <==> i in indices
  }

  method CoverBlock(covered: set<nat>, indices: seq<nat>, ghost before: seq<nat>) returns (r: set<nat>, fits: bool)
    requires Collected(covered, before)
    ensures fits ==> Collected(r, before + indices)
    ensures !fits ==> !Distinct(before + indices)
  {
    r := covered;
    assert before + [] == before && indices[..0] == [];
    for k := 0 to |indices|
      invariant Collected(r, before + indices[..k])
    {
      ghost var sofar := before + indices[..k];
      ghost var more := before + indices[..k + 1];
      assert more == sofar + [indices[k]];
      if indices[k] in r {
        assert more[|sofar|] in sofar;
        assert before + indices == more + indices[k + 1..];
        NotDistinct(sofar, indices[k], indices[k + 1..]);
        return r, false;
      }
      r := r + {indices[k]};
    }
    assert indices[..|indices|] == indices;
    fits := true;
  }

  lemma NotDistinct(a: seq<nat>, x: nat, b: seq<nat>)
    requires x in a
    ensures !Distinct(a + [x] + b)
  {
    var i :| 0 <= i < |a| && a[i] == x;
    var s := a + [x] + b;
    assert s[i] == s[|a|];
  }

  lemma {:induction false} IndicesPrefix(blocks: seq<SsaBlock>, b: nat)
    requires b <= |blocks|
    ensures Distinct(AllIndices(blocks)) ==> Distinct(AllIndices(blocks[..b]))
    decreases |blocks|
  {
    if b < |blocks| {
      var front := blocks[..|blocks| - 1];
      IndicesPrefix(front, b);
      assert front[..b] == blocks[..b];
      DistinctPrefix(AllIndices(front), blocks[|blocks| - 1].instr_indices);
    } else {
      assert blocks[..b] == blocks;
    }
  }

  lemma DistinctPrefix(a: seq<nat>, b: seq<nat>)
    ensures Distinct(a + b) ==> Distinct(a)
  {
    if Distinct(a + b) {
      forall i: nat, j: nat | i < j < |a|
        ensures a[i] != a[j]
      {
        assert (a + b)[i] != (a + b)[j];
      }
    }
  }

  ghost predicate Spans(covered: set<nat>, count: nat) {
    && |covered| == count && count > 0 && 0 in covered && count - 1 in covered
    && forall i :: i in covered ==> i < count
  }

  /** The comparisons with `covered.first()` and `covered.last()`. */
  method FirstAndLast(covered: set<nat>, count: nat) returns (ok: bool)
    ensures ok <==> Spans(covered, count)
  {
    if |covered| != count {
      return false;
    }
    var first, last: nat := 0, 0;
    if covered != {} {
      first, last := Extremes(covered);
    }
    ok := first == 0 && last + 1 == count;
  }

  method Extremes(s: set<nat>) returns (first: nat, last: nat)
    requires s != {}
    ensures first in s && last in s && forall i :: i in s ==> first <= i <= last
  {
    var any :| any in s;
    first, last := any, any;
    var rest := s - {any};
    while rest != {}
      invariant rest <= s && first in s && last in s
      invariant forall i :: i in s && i !in rest ==> first <= i <= last
    {
      var x :| x in rest;
      first := if x < first then x else first;
      last := if x > last then x else last;
      rest := rest - {x};
    }
  }

  lemma CoveredAll(covered: set<nat>, indices: seq<nat>, count: nat)
    requires Collected(covered, indices)
    ensures Spans(covered, count) <==> count > 0 && IsPermutation(indices, count)
  {
    var range := Nodes(count);
    if Spans(covered, count) {
      assert covered <= range;
      SameSize(covered, range);
    }
    if count > 0 && IsPermutation(indices, count) {
      assert covered == range;
    }
  }

  lemma SameSize(a: set<nat>, b: set<nat>)
    requires a <= b && |a| == |b|
    ensures a == b
  {
    assert b == a + (b - a);
  }

  // ----- putting the program together -----

  /** What the analyses say about every run: names denote slot contents, the facts about them are sound, and
      packed objects hold bytes. */
  ghost predicate Analyses(p: RuntimeProgram, g: BlockGraph, preds: seq<seq<nat>>, n: Naming, names: seq<Row>,
      l: SsaProgram)
  {
    && Stable(p, g, preds, n) && l.values == n.values && NamesRecorded(p, g, n, names)
    && FactsSound(p, g, n, l.known_bits)
    && forall k: nat :: k < |l.objects| && l.objects[k].representation == PackedBytes ==>
      AlwaysBytes(p, l.objects[k].slots)
  }

  /** The program holds exactly the blocks, phis and instruction records that the names call for, and the
      memory versions of its objects. */
  ghost predicate Assembled(p: RuntimeProgram, g: BlockGraph, preds: seq<seq<nat>>, n: Naming, names: seq<Row>,
      l: SsaProgram)
  {
    && l.slot_count == p.slots && |l.blocks| == |g.starts| == |preds| && BlocksMade(p, g, preds, l.blocks)
    && PhisRight(n, preds, l.phis) && |l.instructions| == |p.instrs| && RecordsRight(p, n, names, l.instructions)
    && exists m, memory_preds, rows :: MemoryRight(p, g, l.objects, l.memory, m, memory_preds, rows)
  }

  /** The demand is below every closed demand, and closed unless the sweeps reached their limit. */
  ghost predicate DemandRight(p: RuntimeProgram, preds: seq<seq<nat>>, n: Naming, names: seq<Row>, l: SsaProgram) {
    |names| == |p.instrs| && PlacesWithin(PlacesOf(l.phis), preds) &&
    BelowClosed(p, n, preds, PlacesOf(l.phis), names, l.demanded_bits) &&
    exists sweeps: nat, settled ::
      Swept(p, n, preds, PlacesOf(l.phis), names, l.demanded_bits, sweeps, settled) &&
      (settled || sweeps == 4 * |n.values| + 8)
  }

  /** `lower`: for every program in range the analyses are right, and the result passes `verify` exactly when
      there are instructions. */
  method Lower(p: RuntimeProgram)
      returns (l: SsaProgram, ok: bool, g: BlockGraph, preds: seq<seq<nat>>, n: Naming, names: seq<Row>)
    requires InRange(p)
    ensures ok <==> WellBuilt(l, |p.instrs|)
    ensures ok <==> p.instrs != []
    ensures Analyses(p, g, preds, n, names, l)
    ensures Assembled(p, g, preds, n, names, l) && DemandRight(p, preds, n, names, l)
  {
    g := BuildBlockGraph(p);
    n, preds := BuildValueSsa(p, g);
    names := RecordNames(p, g, n);
    var facts, sweeps := ComputeKnownBits(p, g, preds, n, names);
    var blocks := MakeBlocks(p, g, preds);
    var phis := MakePhis(p, g, n, preds);
    var instructions := MakeInstructions(p, g, n, names);
    var objects := PackObjects(p, g, preds, n, facts, names);
    var places := PlacesOf(phis);
    PlacesFit(n, preds, phis);
    hide *;
    var demanded, rounds, settled := ComputeDemandedBits(p, n, preds, places, names);
    var memory, versions, memory_preds, rows := BuildMemorySsa(p, g, objects);
    l := SsaProgram(p.slots, blocks, objects, n.values, phis, facts, demanded, instructions, memory);
    ok := Verify(l, |p.instrs|);
    Together(p, g, preds, l);
  }

  /** If the demanded bits of a lowered program are closed and adequate, its 32-bit instructions are right. */
  lemma LoweredNarrows(w: World, p: RuntimeProgram, g: BlockGraph, preds: seq<seq<nat>>, n: Naming, names: seq<Row>,
      l: SsaProgram, f: Frame, k: nat)
    requires InRange(p) && Analyses(p, g, preds, n, names, l) && Assembled(p, g, preds, n, names, l)
    requires DemandRight(p, preds, n, names, l)
    requires Closed(p, n, preds, PlacesOf(l.phis), names, l.demanded_bits) && AllAdequate(p, n, l.demanded_bits)
    ensures Obs(NarrowRun(w, p, n, l.demanded_bits, f, k)) == Obs(Run(w, p, Start(f), k))
  {
    assert Grounded(p, g, preds, n, PlacesOf(l.phis), names, l.demanded_bits);
    hide *;
    NarrowingPreservesRuns(w, p, g, preds, n, PlacesOf(l.phis), names, l.demanded_bits, f, k);
  }

  /** `infer_memory_objects` and `refine_memory_representations`. */
  method PackObjects(p: RuntimeProgram, g: BlockGraph, preds: seq<seq<nat>>, n: Naming, facts: Facts, names: seq<Row>)
      returns (objects: seq<MemoryObject>)
    requires InRange(p) && Stable(p, g, preds, n) && DefsTotal(p, n.defs)
    requires FactsSound(p, g, n, facts) && NamesRecorded(p, g, n, names)
    ensures forall k: nat :: k < |objects| && objects[k].representation == PackedBytes ==>
      AlwaysBytes(p, objects[k].slots)
  {
    hide Stable;
    hide FactsSound;
    hide NamesRecorded;
    hide AlwaysBytes;
    hide ObjectsOfProgram;
    var inferred, groups := InferMemoryObjects(p);
    var refined, t := RefineMemoryRepresentations(p, g, preds, n, facts, names, inferred);
    assert forall k: nat :: k < |inferred| ==> ObjectRight(p, groups, k, inferred[k]);
    objects := refined;
  }

  /** Where the phis are. */
  function PlacesOf(phis: seq<SsaPhi>): (places: Places)
    ensures |places| == |phis| && forall k: nat :: k < |phis| ==> places[k] == (phis[k].block, phis[k].slot)
  {
    seq(|phis|, k requires 0 <= k < |phis| => (phis[k].block, phis[k].slot))
  }

  lemma PlacesFit(n: Naming, preds: seq<seq<nat>>, phis: seq<SsaPhi>)
    requires PhisRight(n, preds, phis)
    ensures PlacesWithin(PlacesOf(phis), preds)
  {
    forall k: nat | k < |phis|
      ensures PlacesOf(phis)[k].0 < |preds|
    {
      assert PhiRight(n, preds, phis[k]);
    }
  }

  lemma Together(p: RuntimeProgram, g: BlockGraph, preds: seq<seq<nat>>, l: SsaProgram)
    requires g.Valid(p) && |l.blocks| == |g.starts| && |l.known_bits| == |l.demanded_bits| == |l.values|
    requires MemoryFits(l.memory, |l.blocks|, |l.objects|)
    requires |preds| == |g.starts| && BlocksMade(p, g, preds, l.blocks) && AllBlocksOk(l.blocks, |l.blocks|)
    requires AllPhisOk(l, |l.phis|) && AllInstructionsOk(l, |l.instructions|)
    ensures WellBuilt(l, |p.instrs|) <==> p.instrs != []
  {
    IndicesInOrder(p, g, preds, l.blocks, |g.starts|);
    hide BlockGraph.Valid;
    assert l.blocks[..|l.blocks|] == l.blocks;
    Counting(|p.instrs|, AllIndices(l.blocks));
  }

  lemma Counting(n: nat, s: seq<nat>)
    requires s == UpTo(n)
    ensures IsPermutation(s, n)
  {
    forall i: nat | i < n
      ensures i in s
    {
      assert s[i] == i;
    }
  }

  function UpTo(n: nat): (r: seq<nat>)
    ensures |r| == n && forall i: nat :: i < n ==> r[i] == i
  {
    seq(n, i requires 0 <= i < n => i)
  }

  // ----- blocks -----

  ghost predicate BlocksMade(p: RuntimeProgram, g: BlockGraph, preds: seq<seq<nat>>, blocks: seq<SsaBlock>) {
    && |blocks| <= |g.starts| <= |g.successors| && |g.starts| <= |preds|
    && forall b: nat :: b < |blocks| ==> BlockMade(p, g, preds, blocks[b], b)
  }

  ghost predicate BlockMade(p: RuntimeProgram, g: BlockGraph, preds: seq<seq<nat>>, block: SsaBlock, b: nat)
    requires b < |g.starts| <= |g.successors| && |g.starts| <= |preds|
  {
    && g.starts[b] <= g.End(b) <= |p.instrs|
    && block == SsaBlock(b, p.instrs[g.starts[b]..g.End(b)], FromTo(g.starts[b], g.End(b)), preds[b], g.successors[b])
  }

  function FromTo(start: nat, end: nat): (r: seq<nat>)
    requires start <= end
    ensures |r| == end - start && forall i: nat :: i < end - start ==> r[i] == start + i
  {
    seq(end - start, i requires 0 <= i < end - start => start + i)
  }

  method MakeBlocks(p: RuntimeProgram, g: BlockGraph, preds: seq<seq<nat>>) returns (blocks: seq<SsaBlock>)
    requires g.Valid(p) && PredsOk(g, preds)
    ensures |blocks| == |g.starts| && BlocksMade(p, g, preds, blocks) && AllBlocksOk(blocks, |blocks|)
  {
    blocks := [];
    for b := 0 to |g.starts|
      invariant |blocks| == b && BlocksMade(p, g, preds, blocks)
      invariant forall c: nat :: c < b ==> BlockFits(|g.starts|, blocks[c], c)
    {
      BlockWithin(p, g, b);
      EdgesInRange(p, g, preds, b);
      var start, end := g.starts[b], g.End(b);
      hide BlockGraph.Valid;
      hide PredsOk;
      blocks := blocks + [SsaBlock(b, p.instrs[start..end], FromTo(start, end), preds[b], g.successors[b])];
    }
  }

  lemma EdgesInRange(p: RuntimeProgram, g: BlockGraph, preds: seq<seq<nat>>, b: nat)
    requires g.Valid(p) && PredsOk(g, preds) && b < |g.starts|
    ensures AllBelow(g.successors[b], |g.starts|) && AllBelow(preds[b], |g.starts|)
  {
    hide StaticNext;
    forall k: nat | k < |g.successors[b]|
      ensures g.successors[b][k] < |g.starts|
    {
      assert g.successors[b][k] in g.successors[b];
      assert Edge(p, g.starts, b, g.successors[b][k]);
    }
    forall k: nat | k < |preds[b]|
      ensures preds[b][k] < |g.starts|
    {
      assert preds[b][k] in preds[b];
    }
  }

  /** The indices of the blocks, one after the other, count up from 0. */
  lemma {:induction false} IndicesInOrder(p: RuntimeProgram, g: BlockGraph, preds: seq<seq<nat>>,
      blocks: seq<SsaBlock>, b: nat)
    requires g.Valid(p) && |blocks| == |g.starts| == |preds| && BlocksMade(p, g, preds, blocks) && b <= |blocks|
    ensures AllIndices(blocks[..b]) == UpTo(if b < |g.starts| then g.starts[b] else |p.instrs|)
  {
    hide BlockGraph.Valid;
    hide BlocksMade;
    GraphShape(p, g);
    if b > 0 {
      IndicesInOrder(p, g, preds, blocks, b - 1);
      IndicesOfBlock(p, g, preds, blocks, b - 1);
      assert blocks[..b][..b - 1] == blocks[..b - 1];
      UpToMore(g.starts[b - 1], g.End(b - 1));
      hide UpTo;
      hide FromTo;
    }
  }

  lemma GraphShape(p: RuntimeProgram, g: BlockGraph)
    requires g.Valid(p)
    ensures |g.block_of| == |p.instrs| && |g.starts| > 0 && g.starts[0] == 0
  {}

  lemma IndicesOfBlock(p: RuntimeProgram, g: BlockGraph, preds: seq<seq<nat>>, blocks: seq<SsaBlock>, b: nat)
    requires |g.starts| == |preds| && BlocksMade(p, g, preds, blocks) && b < |blocks|
    ensures b < |g.starts| && g.starts[b] <= g.End(b)
    ensures blocks[b].instr_indices == FromTo(g.starts[b], g.End(b))
  {
    assert BlockMade(p, g, preds, blocks[b], b);
  }

  lemma UpToMore(start: nat, end: nat)
    requires start <= end
    ensures UpTo(start) + FromTo(start, end) == UpTo(end)
  {}

  // ----- phis and instruction records -----

  lemma InputsNamed(p: RuntimeProgram, g: BlockGraph, n: Naming, preds: seq<seq<nat>>, b: nat, x: nat)
    requires g.Valid(p) && WellNamed(p, g, n) && PredsOk(g, preds) && b < |g.starts| && x < p.slots
    ensures AllBelow(PhiInputs(n, preds, b, x), |n.values|)
  {
    forall c: nat | c < |g.starts|
      ensures RowOk(p, n.values, n.outs[c])
    {}
    hide BlockGraph.Valid;
    hide PredsOk;
  }

  /** The phi of the naming at its place, with its inputs. */
  ghost predicate PhiRight(n: Naming, preds: seq<seq<nat>>, phi: SsaPhi) {
    && phi.block < |preds| && (phi.block, phi.slot) in n.phis
    && phi == SsaPhi(phi.block, phi.slot, n.phis[(phi.block, phi.slot)], PhiInputs(n, preds, phi.block, phi.slot))
  }

  /** Every phi of the naming, once. */
  ghost predicate PhisRight(n: Naming, preds: seq<seq<nat>>, phis: seq<SsaPhi>) {
    ListsPhis(n, PlacesOf(phis)) && forall k: nat :: k < |phis| ==> PhiRight(n, preds, phis[k])
  }

  ghost predicate PhisMade(p: RuntimeProgram, n: Naming, preds: seq<seq<nat>>, places: Places, phis: seq<SsaPhi>) {
    && |phis| <= |places|
    && forall k: nat :: k < |phis| ==>
      (phis[k].block, phis[k].slot) == places[k] && PhiRight(n, preds, phis[k]) &&
      PhiFits(n.values, |preds|, p.slots, phis[k])
  }

  method MakePhis(p: RuntimeProgram, g: BlockGraph, n: Naming, preds: seq<seq<nat>>) returns (phis: seq<SsaPhi>)
    requires g.Valid(p) && WellNamed(p, g, n) && PredsOk(g, preds) && PhisWithin(n, |g.starts|)
    ensures forall k: nat :: k < |phis| ==> PhiFits(n.values, |g.starts|, p.slots, phis[k])
    ensures PhisRight(n, preds, phis)
  {
    assert PhisOk(p, n.values, n.phis);
    var places := SortedPhis(n, |g.starts|, p.slots);
    phis := [];
    for k := 0 to |places|
      invariant |phis| == k && PhisMade(p, n, preds, places, phis)
    {
      var (b, x) := places[k];
      assert (b, x) in places;
      PhiMade(p, g, n, preds, b, x);
      hide ListsPhis;
      hide WellNamed;
      hide BlockGraph.Valid;
      hide PredsOk;
      hide PhisOk;
      hide PhiInputs;
      hide PhiFits;
      phis := phis + [SsaPhi(b, x, n.phis[(b, x)], PhiInputs(n, preds, b, x))];
    }
    assert PlacesOf(phis) == places;
    hide PhiRight;
  }

  lemma PhiMade(p: RuntimeProgram, g: BlockGraph, n: Naming, preds: seq<seq<nat>>, b: nat, x: nat)
    requires g.Valid(p) && WellNamed(p, g, n) && PredsOk(g, preds) && PhisWithin(n, |g.starts|) && (b, x) in n.phis
    ensures b < |preds| == |g.starts|
    ensures PhiFits(n.values, |preds|, p.slots, SsaPhi(b, x, n.phis[(b, x)], PhiInputs(n, preds, b, x)))
  {
    assert PhisOk(p, n.values, n.phis);
    InputsNamed(p, g, n, preds, b, x);
    hide WellNamed;
    hide BlockGraph.Valid;
    hide PhiInputs;
  }

  /** What an instruction reads, with the names just before it, and what it writes, with the names of its
      results. */
  ghost predicate RecordRight(p: RuntimeProgram, n: Naming, row: Row, i: nat, r: SsaInstruction)
    requires i < |p.instrs|
  {
    var read, written := ReadSlots(p.instrs[i]), Written(p, i);
    && r.instr_index == i && |r.read_uses| == |read| && |r.write_uses| == |written|
    && (forall k: nat :: k < |read| ==> read[k] < |row| && r.read_uses[k] == SsaUse(read[k], row[read[k]]))
    && (forall k: nat :: k < |written| ==>
      (i, written[k]) in n.defs && r.write_uses[k] == SsaUse(written[k], n.defs[(i, written[k])]))
  }

  /** The slots that an instruction writes, sorted and each once. */
  function Written(p: RuntimeProgram, i: nat): (r: seq<nat>)
    requires i < |p.instrs|
    ensures Increasing(r) && forall x :: x in r <==> x in WriteSlots(p.instrs[i]) && x < p.slots
  {
    SortedBelow((set x | x in WriteSlots(p.instrs[i])), p.slots)
  }

  ghost predicate RecordsRight(p: RuntimeProgram, n: Naming, names: seq<Row>, instructions: seq<SsaInstruction>) {
    && |instructions| <= |p.instrs| && |instructions| <= |names|
    && forall i: nat :: i < |instructions| ==> RecordRight(p, n, names[i], i, instructions[i])
  }

  method MakeInstructions(p: RuntimeProgram, g: BlockGraph, n: Naming, names: seq<Row>)
      returns (instructions: seq<SsaInstruction>)
    requires g.Valid(p) && WellNamed(p, g, n) && InRange(p) && DefsTotal(p, n.defs) && NamesRecorded(p, g, n, names)
    ensures |instructions| == |p.instrs| && RecordsRight(p, n, names, instructions)
    ensures forall k: nat :: k < |instructions| ==> InstructionFits(n.values, instructions[k])
  {
    instructions := [];
    for i := 0 to |p.instrs|
      invariant |instructions| == i && RecordsRight(p, n, names, instructions)
      invariant forall k: nat :: k < |instructions| ==> InstructionFits(n.values, instructions[k])
    {
      NamedRow(p, g, n, names, i);
      assert InstrInRange(p, p.instrs[i]);
      assert DefsOk(p, n.values, n.defs);
      var r := MakeRecord(p, n, names[i], i);
      hide WellNamed;
      hide InstructionFits;
      hide RecordRight;
      hide BlockGraph.Valid;
      instructions := instructions + [r];
    }
  }

  lemma NamedRow(p: RuntimeProgram, g: BlockGraph, n: Naming, names: seq<Row>, i: nat)
    requires g.Valid(p) && WellNamed(p, g, n) && DefsTotal(p, n.defs) && NamesRecorded(p, g, n, names) && i < |p.instrs|
    ensures RowOk(p, n.values, names[i])
  {
    var b := g.block_of[i];
    assert names[i] == NameAt(p, g, n, i);
    assert RowOk(p, n.values, n.ins[b]);
    RowAtOk(p, n, n.ins[b], g.starts[b], i);
  }

  method MakeRecord(p: RuntimeProgram, n: Naming, row: Row, i: nat) returns (r: SsaInstruction)
    requires i < |p.instrs| && InstrInRange(p, p.instrs[i]) && RowOk(p, n.values, row) && DefsOk(p, n.values, n.defs)
    ensures RecordRight(p, n, row, i, r) && InstructionFits(n.values, r)
  {
    var read_uses := MakeReads(p, n.values, row, ReadSlots(p.instrs[i]));
    var write_uses := MakeWrites(p, n, i, Written(p, i));
    hide UsesFit;
    hide InstrInRange;
    r := SsaInstruction(i, read_uses, write_uses);
  }

  method MakeReads(p: RuntimeProgram, values: seq<SSAValue>, row: Row, read: seq<nat>) returns (uses: seq<SsaUse>)
    requires RowOk(p, values, row) && forall x :: x in read ==> x < p.slots
    ensures UsesFit(values, uses) && |uses| == |read|
    ensures forall k: nat :: k < |read| ==> read[k] < |row| && uses[k] == SsaUse(read[k], row[read[k]])
  {
    uses := [];
    for k := 0 to |read|
      invariant UsesFit(values, uses) && |uses| == k
      invariant forall j: nat :: j < k ==> read[j] < |row| && uses[j] == SsaUse(read[j], row[read[j]])
    {
      assert read[k] in read;
      uses := uses + [SsaUse(read[k], row[read[k]])];
    }
  }

  method MakeWrites(p: RuntimeProgram, n: Naming, i: nat, written: seq<nat>) returns (uses: seq<SsaUse>)
    requires DefsOk(p, n.values, n.defs) && forall x :: x in written ==> WritesSlot(p, i, x)
    ensures UsesFit(n.values, uses) && |uses| == |written|
    ensures forall k: nat :: k < |written| ==>
      (i, written[k]) in n.defs && uses[k] == SsaUse(written[k], n.defs[(i, written[k])])
  {
    hide WritesSlot;
    uses := [];
    for k := 0 to |written|
      invariant UsesFit(n.values, uses) && |uses| == k
      invariant forall j: nat :: j < k ==>
        (i, written[j]) in n.defs && uses[j] == SsaUse(written[j], n.defs[(i, written[j])])
    {
      assert written[k] in written;
      uses := uses + [SsaUse(written[k], n.defs[(i, written[k])])];
    }
  }
}
