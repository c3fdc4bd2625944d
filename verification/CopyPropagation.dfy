/** `propagate_single_assignment_copies`: find copies that only rename a value, read the value
    through its source instead, and delete the copies. */
module CopyPropagation {
  import opened Words
  import opened Ir
  import opened Semantics
  import opened Execution
  import opened Blocks
  import opened Compaction

  // ----- which copies may go -----

  function Count(s: seq<nat>, x: nat): nat {
    if s == [] then 0 else Count(s[..|s| - 1], x) + (if s[|s| - 1] == x then 1 else 0)
  }

  /** How often the first `n` instructions write slot `x`. */
  function WriteCount(p: RuntimeProgram, x: nat, n: nat): nat
    requires n <= |p.instrs|
  {
    if n == 0 then 0 else WriteCount(p, x, n - 1) + Count(WriteSlots(p.instrs[n - 1]), x)
  }

  predicate Writes(p: RuntimeProgram, j: nat, x: nat) {
    j < |p.instrs| && x in WriteSlots(p.instrs[j])
  }

  predicate Reads(p: RuntimeProgram, j: nat, x: nat) {
    j < |p.instrs| && x in ReadSlots(p.instrs[j])
  }

  /** Some instruction uses slot `x` other than through an operand. */
  ghost predicate NamedDirectly(p: RuntimeProgram, x: nat) {
    exists j :: 0 <= j < |p.instrs| && x in DirectReads(p.instrs[j])
  }

  /** Instruction `i` copies into a slot that nothing else writes, that is only ever an operand, and
      that is only read later in the same block; the source, if a slot, has its only write no later. */
  ghost predicate IsCandidate(p: RuntimeProgram, i: nat) {
    && i < |p.instrs| && p.instrs[i].Mov?
    && var dst := p.instrs[i].dst;
    && WriteCount(p, dst, |p.instrs|) == 1
    && !NamedDirectly(p, dst)
    && (forall j: nat :: Reads(p, j, dst) ==> i < j && SameBlock(p, i, j))
    && SourceSettled(p, i, p.instrs[i].src)
  }

  ghost predicate SourceSettled(p: RuntimeProgram, i: nat, src: RuntimeOperand) {
    src.Slot? ==>
      && WriteCount(p, src.slot, |p.instrs|) <= 1
      && (forall j: nat :: Writes(p, j, src.slot) ==> j <= i)
  }

  type Aliases = map<nat, RuntimeOperand>

  function Resolve(aliases: Aliases, o: RuntimeOperand): RuntimeOperand {
    if o.Slot? && o.slot in aliases then aliases[o.slot] else o
  }

  /** `aliases` names the value of every copy among the first `n` instructions by something that is
      not itself a deleted copy, however long the chain of copies is. */
  ghost predicate ResolvedAliases(p: RuntimeProgram, aliases: Aliases, n: nat) {
    && (forall d :: d in aliases ==> exists i :: 0 <= i < n && CopyOf(p, i, d))
    && (forall i, d :: 0 <= i < n && CopyOf(p, i, d) ==>
         d in aliases && aliases[d] == Resolve(aliases, p.instrs[i].src) &&
         (aliases[d].Slot? ==> aliases[d].slot !in aliases))
  }

  ghost predicate CopyOf(p: RuntimeProgram, i: nat, d: nat) {
    IsCandidate(p, i) && p.instrs[i].dst == d
  }

  ghost predicate CopyIndices(p: RuntimeProgram, removed: set<nat>, n: nat) {
    forall i: nat :: i in removed <==> i < n && IsCandidate(p, i)
  }

  function RewriteInstructionOperands(i: RuntimeInstr, aliases: Aliases): RuntimeInstr {
    MapInstr(i, o => Resolve(aliases, o), x => x)
  }

  function RewriteAll(p: RuntimeProgram, aliases: Aliases): RuntimeProgram {
    RuntimeProgram(p.slots,
      seq(|p.instrs|, k requires 0 <= k < |p.instrs| => RewriteInstructionOperands(p.instrs[k], aliases)))
  }

  /** What the pass produces. */
  ghost predicate Propagated(p: RuntimeProgram, aliases: Aliases, removed: set<nat>, q: RuntimeProgram) {
    && ResolvedAliases(p, aliases, |p.instrs|)
    && CopyIndices(p, removed, |p.instrs|)
    && Compacted(RewriteAll(p, aliases), removed, q)
  }

  // ----- counting writes -----

  lemma {:induction false} CountPositive(s: seq<nat>, x: nat)
    ensures Count(s, x) > 0 <==> x in s
  {
    if s != [] {
      CountPositive(s[..|s| - 1], x);
      assert s == s[..|s| - 1] + [s[|s| - 1]];
    }
  }

  lemma {:induction false} WriteCountSplit(p: RuntimeProgram, x: nat, j: nat, n: nat)
    requires j < n <= |p.instrs|
    ensures WriteCount(p, x, n) >= WriteCount(p, x, j) + Count(WriteSlots(p.instrs[j]), x)
  {
    if j < n - 1 {
      WriteCountSplit(p, x, j, n - 1);
    }
  }

  /** A slot written once has one writer. */
  lemma SoleWriter(p: RuntimeProgram, x: nat, i: nat, j: nat)
    requires WriteCount(p, x, |p.instrs|) <= 1 && Writes(p, i, x) && Writes(p, j, x)
    ensures i == j
  {
    CountPositive(WriteSlots(p.instrs[i]), x);
    CountPositive(WriteSlots(p.instrs[j]), x);
    if i < j {
      WriteCountSplit(p, x, i, j);
      WriteCountSplit(p, x, j, |p.instrs|);
    } else if j < i {
      WriteCountSplit(p, x, j, i);
      WriteCountSplit(p, x, i, |p.instrs|);
    }
  }

  lemma CopyUnique(p: RuntimeProgram, i: nat, j: nat, d: nat)
    requires CopyOf(p, i, d) && Writes(p, j, d)
    ensures i == j
  {
    SoleWriter(p, d, i, j);
  }

  /** The source of a copy, if it is itself a deleted copy, was defined earlier in the same block. */
  lemma SourceEarlier(p: RuntimeProgram, i: nat, j: nat, d: nat, s: nat)
    requires CopyOf(p, i, d) && p.instrs[i].src == Slot(s) && CopyOf(p, j, s)
    ensures j < i && SameBlock(p, j, i)
  {
    assert Slot(s) in Operands(p.instrs[i]);
    assert Reads(p, i, s);
  }

  // ----- the analysis of the program -----

  /** The vectors filled by the first loop; `direct` marks the slots that are addressable or that only
      a slot field reads. */
  datatype Uses = Uses(write_count: seq<nat>, sole_write: seq<Option<nat>>, read_indices: seq<seq<nat>>,
      direct: seq<bool>)

  ghost predicate Describes(p: RuntimeProgram, u: Uses, n: nat)
    requires n <= |p.instrs|
  {
    && |u.write_count| == |u.sole_write| == |u.read_indices| == |u.direct| == p.slots
    && forall x :: 0 <= x < p.slots ==>
      && u.write_count[x] == WriteCount(p, x, n)
      && LastWrite(p, u.sole_write[x], x, n)
      && ReadList(p, u.read_indices[x], x, n)
      && (u.direct[x] <==> DirectBefore(p, x, n))
  }

  ghost predicate LastWrite(p: RuntimeProgram, last: Option<nat>, x: nat, n: nat) {
    && (last.Some? ==> last.value < n && Writes(p, last.value, x))
    && (forall j: nat :: j < n && Writes(p, j, x) ==> last.Some? && j <= last.value)
  }

  ghost predicate ReadList(p: RuntimeProgram, indices: seq<nat>, x: nat, n: nat) {
    && (forall j: nat :: j in indices <==> j < n && Reads(p, j, x))
    && (forall i, j :: 0 <= i < j < |indices| ==> indices[i] <= indices[j])
  }

  ghost predicate DirectBefore(p: RuntimeProgram, x: nat, n: nat)
    requires n <= |p.instrs|
  {
    exists j :: 0 <= j < n && x in DirectReads(p.instrs[j])
  }

  method AnalyseUses(p: RuntimeProgram) returns (u: Uses)
    requires InRange(p)
    ensures Describes(p, u, |p.instrs|)
  {
    u := Uses(seq(p.slots, _ => 0), seq(p.slots, _ => None), seq(p.slots, _ => []), seq(p.slots, _ => false));
    for index := 0 to |p.instrs|
      invariant Describes(p, u, index)
    {
      var instr := p.instrs[index];
      assert InstrInRange(p, instr);
      var write_count, sole_write := NoteWrites(u.write_count, u.sole_write, WriteSlots(instr), index);
      var read_indices := NoteReads(u.read_indices, ReadSlots(instr), index);
      var direct := NoteDirect(u.direct, DirectReads(instr));
      ghost var v := u;
      u := Uses(write_count, sole_write, read_indices, direct);
      forall x | 0 <= x < p.slots
        ensures u.write_count[x] == WriteCount(p, x, index + 1)
        ensures LastWrite(p, u.sole_write[x], x, index + 1)
        ensures ReadList(p, u.read_indices[x], x, index + 1)
        ensures u.direct[x] <==> DirectBefore(p, x, index + 1)
      {
        NotedSlot(p, v, u, x, index);
      }
    }
  }

  lemma NotedSlot(p: RuntimeProgram, v: Uses, u: Uses, x: nat, n: nat)
    requires n < |p.instrs| && Describes(p, v, n) && x < p.slots
    requires |u.write_count| == |u.sole_write| == |u.read_indices| == |u.direct| == p.slots
    requires u.write_count[x] == v.write_count[x] + Count(WriteSlots(p.instrs[n]), x)
    requires u.sole_write[x] == if x in WriteSlots(p.instrs[n]) then Some(n) else v.sole_write[x]
    requires Extended(v.read_indices[x], u.read_indices[x], n, x in ReadSlots(p.instrs[n]))
    requires u.direct[x] == (v.direct[x] || x in DirectReads(p.instrs[n]))
    ensures u.write_count[x] == WriteCount(p, x, n + 1)
    ensures LastWrite(p, u.sole_write[x], x, n + 1)
    ensures ReadList(p, u.read_indices[x], x, n + 1)
    ensures u.direct[x] <==> DirectBefore(p, x, n + 1)
  {
    WriteExtended(p, v.sole_write[x], u.sole_write[x], x, n);
    ReadsExtended(p, v.read_indices[x], u.read_indices[x], x, n);
    DirectExtended(p, x, n);
  }

  lemma WriteExtended(p: RuntimeProgram, before: Option<nat>, after: Option<nat>, x: nat, n: nat)
    requires n < |p.instrs| && LastWrite(p, before, x, n)
    requires after == if x in WriteSlots(p.instrs[n]) then Some(n) else before
    ensures LastWrite(p, after, x, n + 1)
  {}

  lemma DirectExtended(p: RuntimeProgram, x: nat, n: nat)
    requires n < |p.instrs|
    ensures DirectBefore(p, x, n + 1) <==> DirectBefore(p, x, n) || x in DirectReads(p.instrs[n])
  {}

  lemma ReadsExtended(p: RuntimeProgram, indices: seq<nat>, longer: seq<nat>, x: nat, n: nat)
    requires n < |p.instrs| && ReadList(p, indices, x, n) && Extended(indices, longer, n, x in ReadSlots(p.instrs[n]))
    ensures ReadList(p, longer, x, n + 1)
  {
    assert forall k :: 0 <= k < |indices| ==> longer[k] == indices[k] && indices[k] in indices;
    forall j: nat
      ensures j in longer <==> j < n + 1 && Reads(p, j, x)
    {
      if j < n && Reads(p, j, x) {
        assert j in indices;
        assert longer == indices + longer[|indices|..];
      } else if j == n && Reads(p, j, x) {
        assert longer[|indices|] == n;
      }
    }
  }

  /** `longer` is `indices` with `n` appended, at least once exactly when `some`. */
  ghost predicate Extended(indices: seq<nat>, longer: seq<nat>, n: nat, some: bool) {
    && |indices| <= |longer| && longer[..|indices|] == indices
    && (forall k :: |indices| <= k < |longer| ==> longer[k] == n)
    && (|longer| > |indices| <==> some)
  }

  method NoteWrites(write_count: seq<nat>, sole_write: seq<Option<nat>>, slots: seq<nat>, index: nat)
    returns (counts: seq<nat>, lasts: seq<Option<nat>>)
    requires |write_count| == |sole_write| && forall x :: x in slots ==> x < |write_count|
    ensures |counts| == |lasts| == |write_count|
    ensures forall x :: 0 <= x < |write_count| ==>
      counts[x] == write_count[x] + Count(slots, x) && lasts[x] == if x in slots then Some(index) else sole_write[x]
  {
    counts, lasts := write_count, sole_write;
    for k := 0 to |slots|
      invariant |counts| == |lasts| == |write_count|
      invariant forall x :: 0 <= x < |write_count| ==>
        counts[x] == write_count[x] + Count(slots[..k], x)
          && lasts[x] == if x in slots[..k] then Some(index) else sole_write[x]
    {
      var slot := slots[k];
      assert slot in slots;
      counts := counts[slot := counts[slot] + 1];
      lasts := lasts[slot := Some(index)];
      assert slots[..k + 1][..k] == slots[..k] && slots[..k + 1] == slots[..k] + [slot];
    }
    assert slots[..|slots|] == slots;
  }

  method NoteReads(read_indices: seq<seq<nat>>, slots: seq<nat>, index: nat) returns (indices: seq<seq<nat>>)
    requires forall x :: x in slots ==> x < |read_indices|
    ensures |indices| == |read_indices|
    ensures forall x :: 0 <= x < |read_indices| ==> Extended(read_indices[x], indices[x], index, x in slots)
  {
    indices := read_indices;
    for k := 0 to |slots|
      invariant |indices| == |read_indices|
      invariant forall x :: 0 <= x < |read_indices| ==> Extended(read_indices[x], indices[x], index, x in slots[..k])
    {
      var slot := slots[k];
      assert slot in slots;
      assert Extended(read_indices[slot], indices[slot] + [index], index, true);
      indices := indices[slot := indices[slot] + [index]];
      assert slots[..k + 1] == slots[..k] + [slot];
    }
    assert slots[..|slots|] == slots;
  }

  method NoteDirect(direct: seq<bool>, slots: seq<nat>) returns (marks: seq<bool>)
    requires forall x :: x in slots ==> x < |direct|
    ensures |marks| == |direct| && forall x :: 0 <= x < |direct| ==> marks[x] == (direct[x] || x in slots)
  {
    marks := direct;
    for k := 0 to |slots|
      invariant |marks| == |direct| && forall x :: 0 <= x < |direct| ==> marks[x] == (direct[x] || x in slots[..k])
    {
      assert slots[k] in slots;
      marks := marks[slots[k] := true];
      assert slots[..k + 1] == slots[..k] + [slots[k]];
    }
    assert slots[..|slots|] == slots;
  }

  // ----- the pass -----

  ghost predicate AllReadsFollow(p: RuntimeProgram, index: nat, dst: nat) {
    forall j: nat :: Reads(p, j, dst) ==> index < j && SameBlock(p, index, j)
  }

  /** Whether all reads of the slot come after the instruction, in its block. */
  method ReadsFollow(p: RuntimeProgram, g: BlockGraph, index: nat, dst: nat, indices: seq<nat>) returns (ok: bool)
    requires g.Cuts(p) && index < |p.instrs| && ReadList(p, indices, dst, |p.instrs|)
    ensures ok <==> AllReadsFollow(p, index, dst)
  {
    assert forall j: nat :: Reads(p, j, dst) ==> j < |p.instrs|;
    hide Reads;
    hide SameBlock;
    if indices != [] && indices[0] <= index {
      assert indices[0] in indices;
      return false;
    }
    var k := 0;
    while k < |indices|
      invariant 0 <= k <= |indices|
      invariant forall m :: 0 <= m < k ==> SameBlock(p, index, indices[m])
    {
      assert indices[k] in indices && index < indices[k];
      SameBlockOf(g, p, index, indices[k]);
      if g.block_of[indices[k]] != g.block_of[index] {
        return false;
      }
      k := k + 1;
    }
    forall j: nat | Reads(p, j, dst)
      ensures index < j && SameBlock(p, index, j)
    {
      assert j in indices;
      var m :| 0 <= m < |indices| && indices[m] == j;
      assert indices[0] <= indices[m];
    }
    return true;
  }

  /** The tests of the second loop, on the vectors of the first. */
  method SelectCopy(p: RuntimeProgram, g: BlockGraph, u: Uses, index: nat) returns (selected: bool)
    requires InRange(p) && g.Cuts(p) && Describes(p, u, |p.instrs|) && index < |p.instrs|
    ensures selected <==> IsCandidate(p, index)
  {
    hide SameBlock;
    var instr := p.instrs[index];
    if !instr.Mov? {
      return false;
    }
    assert InstrInRange(p, instr);
    var dst := instr.dst;
    assert dst in WriteSlots(instr);
    var indices := u.read_indices[dst];
    assert ReadList(p, indices, dst, |p.instrs|);
    assert u.direct[dst] <==> NamedDirectly(p, dst);
    hide NamedDirectly;
    if u.write_count[dst] != 1 || u.direct[dst] {
      return false;
    }
    var follow := ReadsFollow(p, g, index, dst, indices);
    hide Reads;
    hide ReadList;
    if !follow {
      return false;
    }
    if instr.src.Slot? {
      var source := instr.src.slot;
      assert instr.src in Operands(instr);
      assert source in ReadSlots(instr);
      assert LastWrite(p, u.sole_write[source], source, |p.instrs|);
      if u.write_count[source] > 1 || (u.sole_write[source].Some? && u.sole_write[source].value > index) {
        return false;
      }
    }
    return true;
  }

  method PropagateSingleAssignmentCopies(p: RuntimeProgram)
      returns (q: RuntimeProgram, aliases: Aliases, removed: set<nat>)
    requires InRange(p)
    ensures Propagated(p, aliases, removed, q)
  {
    var g := BuildBlockGraph(p);
    var u := AnalyseUses(p);
    aliases, removed := map[], {};
    for index := 0 to |p.instrs|
      invariant ResolvedAliases(p, aliases, index) && CopyIndices(p, removed, index)
    {
      hide ResolvedAliases;
      hide CopyIndices;
      hide Describes;
      hide BlockGraph.Cuts;
      aliases, removed := RecordCopy(p, g, u, aliases, removed, index);
    }
    var rewritten := RewriteAll(p, aliases);
    q := RemoveRuntimeInstructions(rewritten, removed);
  }

  /** One round of the second loop. */
  method RecordCopy(p: RuntimeProgram, g: BlockGraph, u: Uses, before: Aliases, copies: set<nat>, index: nat)
    returns (aliases: Aliases, removed: set<nat>)
    requires InRange(p) && g.Cuts(p) && Describes(p, u, |p.instrs|) && index < |p.instrs|
    requires ResolvedAliases(p, before, index) && CopyIndices(p, copies, index)
    ensures ResolvedAliases(p, aliases, index + 1) && CopyIndices(p, removed, index + 1)
  {
    var selected := SelectCopy(p, g, u, index);
    aliases, removed := before, copies;
    if selected {
      CandidateMoves(p, index);
      hide IsCandidate;
      var replacement := FollowAliases(p, before, index);
      AddAlias(p, before, index, replacement);
      hide ResolvedAliases;
      aliases := before[p.instrs[index].dst := replacement];
      removed := copies + {index};
    } else {
      NotACopy(p, before, index);
      hide IsCandidate;
      hide ResolvedAliases;
    }
  }

  lemma CandidateMoves(p: RuntimeProgram, i: nat)
    requires IsCandidate(p, i)
    ensures p.instrs[i].Mov?
  {}

  lemma NotACopy(p: RuntimeProgram, aliases: Aliases, n: nat)
    requires ResolvedAliases(p, aliases, n) && !IsCandidate(p, n)
    ensures ResolvedAliases(p, aliases, n + 1)
  {
    hide IsCandidate;
    forall i, e | 0 <= i < n + 1 && CopyOf(p, i, e)
      ensures i < n
    {}
    forall e | e in aliases
      ensures exists i :: 0 <= i < n + 1 && CopyOf(p, i, e)
    {
      var i :| 0 <= i < n && CopyOf(p, i, e);
    }
    hide CopyOf;
  }

  /** Follow the replacements from the source of a copy to the end; one round is enough, because what has
      been recorded is already resolved. */
  method FollowAliases(p: RuntimeProgram, aliases: Aliases, index: nat) returns (replacement: RuntimeOperand)
    requires index < |p.instrs| && p.instrs[index].Mov? && ResolvedAliases(p, aliases, index)
    ensures replacement == Resolve(aliases, p.instrs[index].src)
  {
    hide ResolvedAliases;
    replacement := p.instrs[index].src;
    ghost var rounds := 0;
    while replacement.Slot? && replacement.slot in aliases
      invariant rounds <= 1
      invariant rounds == 0 ==> replacement == p.instrs[index].src
      invariant rounds == 1 ==>
        replacement == Resolve(aliases, p.instrs[index].src) && (replacement.Slot? ==> replacement.slot !in aliases)
      decreases 1 - rounds
    {
      AliasFinal(p, aliases, index, replacement.slot);
      replacement := aliases[replacement.slot];
      rounds := rounds + 1;
    }
  }

  lemma AliasFinal(p: RuntimeProgram, aliases: Aliases, n: nat, d: nat)
    requires ResolvedAliases(p, aliases, n) && d in aliases
    ensures aliases[d].Slot? ==> aliases[d].slot !in aliases
  {
    var i :| 0 <= i < n && CopyOf(p, i, d);
  }

  lemma AddAlias(p: RuntimeProgram, aliases: Aliases, n: nat, replacement: RuntimeOperand)
    requires n < |p.instrs| && ResolvedAliases(p, aliases, n) && IsCandidate(p, n)
    requires replacement == Resolve(aliases, p.instrs[n].src)
    ensures ResolvedAliases(p, aliases[p.instrs[n].dst := replacement], n + 1)
  {
    var d := p.instrs[n].dst;
    var after := aliases[d := replacement];
    assert CopyOf(p, n, d);
    forall i, e | 0 <= i < n + 1 && CopyOf(p, i, e)
      ensures e in after && after[e] == Resolve(after, p.instrs[i].src) && (after[e].Slot? ==> after[e].slot !in after)
    {
      if i < n {
        AliasKept(p, aliases, n, i, e, d, replacement);
      } else {
        AliasAdded(p, aliases, n, d, replacement);
      }
    }
    hide IsCandidate;
    forall e | e in after
      ensures exists i :: 0 <= i < n + 1 && CopyOf(p, i, e)
    {
      if e != d {
        var i :| 0 <= i < n && CopyOf(p, i, e);
        assert CopyOf(p, i, e);
      }
    }
  }

  lemma AliasKept(p: RuntimeProgram, aliases: Aliases, n: nat, i: nat, e: nat, d: nat, replacement: RuntimeOperand)
    requires ResolvedAliases(p, aliases, n) && i < n < |p.instrs| && CopyOf(p, i, e) && CopyOf(p, n, d)
    ensures var after := aliases[d := replacement];
      e in after && after[e] == Resolve(after, p.instrs[i].src) && (after[e].Slot? ==> after[e].slot !in after)
  {
    SourceIsNotLater(p, i, n, e, d);
    assert e in aliases;
    if e == d {
      assert Writes(p, i, d);
      CopyUnique(p, n, i, d);
    }
    hide IsCandidate;
    AliasNotLater(p, aliases, n, i, e, d);
  }

  lemma AliasAdded(p: RuntimeProgram, aliases: Aliases, n: nat, d: nat, replacement: RuntimeOperand)
    requires ResolvedAliases(p, aliases, n) && n < |p.instrs| && CopyOf(p, n, d)
      && replacement == Resolve(aliases, p.instrs[n].src)
    ensures var after := aliases[d := replacement];
      replacement == Resolve(after, p.instrs[n].src) && (replacement.Slot? ==> replacement.slot !in after)
  {
    SourceIsNotLater(p, n, n, d, d);
    if p.instrs[n].src.Slot? && p.instrs[n].src.slot in aliases {
      var s := p.instrs[n].src.slot;
      var j :| 0 <= j < n && CopyOf(p, j, s);
      AliasNotLater(p, aliases, n, j, s, d);
    }
    hide IsCandidate;
  }

  /** The source of a copy is not the target of the same or a later copy. */
  lemma SourceIsNotLater(p: RuntimeProgram, i: nat, n: nat, e: nat, d: nat)
    requires i <= n && CopyOf(p, i, e) && CopyOf(p, n, d)
    ensures p.instrs[i].src != Slot(d)
  {
    if p.instrs[i].src == Slot(d) {
      SourceEarlier(p, i, n, e, d);
    }
  }

  /** Nor is what it resolves to. */
  lemma {:induction false} AliasNotLater(p: RuntimeProgram, aliases: Aliases, n: nat, i: nat, e: nat, d: nat)
    requires n <= |p.instrs| && ResolvedAliases(p, aliases, n) && i < n && CopyOf(p, i, e) && CopyOf(p, n, d)
    ensures aliases[e] != Slot(d)
    decreases i
  {
    SourceIsNotLater(p, i, n, e, d);
    if p.instrs[i].src.Slot? && p.instrs[i].src.slot in aliases {
      var s := p.instrs[i].src.slot;
      var j :| 0 <= j < n && CopyOf(p, j, s);
      SourceEarlier(p, i, j, e, s);
      AliasNotLater(p, aliases, n, j, s, d);
    }
  }
}
