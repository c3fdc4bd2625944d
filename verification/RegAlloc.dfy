/** `RuntimeSlotMap::from_lir`: registers by priority, then stack words shared by slots that never overlap. */
module RegAlloc {
  import opened Words
  import opened Ir
  import opened Permutations
  import opened Intervals

  datatype Location = Register(register: nat) | StackWord(index: nat) | PackedByte(slot: nat) | Nowhere(slot: nat)

  datatype RuntimeSlotMap = RuntimeSlotMap(reg_by_slot: seq<Option<nat>>, stack_index_by_slot: seq<Option<nat>>,
      packed_byte: seq<bool>) {
    function LocationOf(x: nat): Location {
      if x < |reg_by_slot| && reg_by_slot[x].Some? then Register(reg_by_slot[x].value)
      else if x < |packed_byte| && packed_byte[x] then PackedByte(x)
      else if x < |stack_index_by_slot| && stack_index_by_slot[x].Some? then StackWord(stack_index_by_slot[x].value)
      else Nowhere(x)
    }
  }

  // ----- who may share -----

  /** Instruction `i` computes `dst` from `src` as its first operand. */
  predicate CopiesAt(p: RuntimeProgram, i: nat, dst: nat, src: nat) {
    i < |p.instrs| &&
    match p.instrs[i]
    case Mov(d, s) => d == dst && s == Slot(src)
    case BinOp(d, _, lhs, _) => d == dst && lhs == Slot(src)
    case _ => false
  }

  /** `copy_coalescible` */
  predicate CopyCoalescible(p: RuntimeProgram, first: LiveInterval, second: LiveInterval) {
    if first.copy_hint == Some(second.slot) then first.start == second.end
      && CopiesAt(p, first.start, first.slot, second.slot)
    else if second.copy_hint == Some(first.slot) then second.start == first.end
      && CopiesAt(p, second.start, second.slot, first.slot)
    else false
  }

  ghost predicate Compatible(p: RuntimeProgram, a: LiveInterval, b: LiveInterval) {
    !Overlap(a.segments, b.segments) || CopyCoalescible(p, a, b)
  }

  /** Two intervals that never overlap, or overlap only at the copy from one to the other. */
  ghost predicate MayShare(p: RuntimeProgram, a: LiveInterval, b: LiveInterval) {
    Compatible(p, a, b) || Compatible(p, b, a)
  }

  ghost predicate AllOrdered(intervals: seq<LiveInterval>) {
    && (forall k :: 0 <= k < |intervals| ==> InSequence(intervals[k].segments))
    && (forall j, k :: 0 <= j < k < |intervals| ==> intervals[j].slot != intervals[k].slot)
  }

  ghost predicate CompatibleWithAll(p: RuntimeProgram, intervals: seq<LiveInterval>, k: nat, others: seq<nat>)
    requires k < |intervals| && Within(others, |intervals|)
  {
    forall j :: 0 <= j < |others| ==> Compatible(p, intervals[k], intervals[others[j]])
  }

  method CheckCompatible(p: RuntimeProgram, intervals: seq<LiveInterval>, k: nat, others: seq<nat>, coalesce: bool)
      returns (ok: bool)
    requires AllOrdered(intervals) && k < |intervals| && Within(others, |intervals|)
    ensures coalesce ==> (ok <==> CompatibleWithAll(p, intervals, k, others))
    ensures !coalesce ==> (ok <==> DisjointFromAll(intervals, k, others))
  {
    hide CopyCoalescible;
    hide Overlap;
    hide InSequence;
    ok := true;
    for j := 0 to |others|
      invariant ok
      invariant forall i :: 0 <= i < j ==>
        (coalesce && Compatible(p, intervals[k], intervals[others[i]]))
          || !Overlap(intervals[k].segments, intervals[others[i]].segments)
    {
      var other := intervals[others[j]];
      var interferes := Interferes(intervals[k].segments, other.segments);
      if interferes && !(coalesce && CopyCoalescible(p, intervals[k], other)) {
        return false;
      }
    }
  }

  ghost predicate DisjointFromAll(intervals: seq<LiveInterval>, k: nat, others: seq<nat>)
    requires k < |intervals| && Within(others, |intervals|)
  {
    forall j :: 0 <= j < |others| ==> !Overlap(intervals[k].segments, intervals[others[j]].segments)
  }

  // ----- registers -----

  /** The intervals listed for a register, pairwise able to share it. */
  ghost predicate Sharers(p: RuntimeProgram, intervals: seq<LiveInterval>, members: seq<nat>) {
    Within(members, |intervals|) &&
    forall i, j :: 0 <= i < j < |members| ==> MayShare(p, intervals[members[i]], intervals[members[j]])
  }

  ghost predicate RegistersRight(p: RuntimeProgram, intervals: seq<LiveInterval>, reg_by_slot: seq<Option<nat>>,
      assigned_by_reg: seq<seq<nat>>)
  {
    && |reg_by_slot| == p.slots
    && (forall r :: 0 <= r < |assigned_by_reg| ==> Sharers(p, intervals, assigned_by_reg[r]))
    && (forall k :: 0 <= k < |intervals| && intervals[k].slot < p.slots && reg_by_slot[intervals[k].slot].Some? ==>
         ListedFor(assigned_by_reg, reg_by_slot[intervals[k].slot].value, k) && !intervals[k].force_stack)
  }

  ghost predicate ListedFor(table: seq<seq<nat>>, r: nat, k: nat) {
    r < |table| && k in table[r]
  }

  predicate HasRegister(reg_by_slot: seq<Option<nat>>, x: nat) {
    x < |reg_by_slot| && reg_by_slot[x].Some?
  }

  /** The source of the copy into interval `k` has a register. */
  predicate SourcePlaced(intervals: seq<LiveInterval>, reg_by_slot: seq<Option<nat>>, k: nat)
    requires k < |intervals|
  {
    intervals[k].copy_hint.Some? && HasRegister(reg_by_slot, intervals[k].copy_hint.value)
  }

  /** Interval `j` is copied from interval `k` and has a register. */
  predicate CopyPlaced(intervals: seq<LiveInterval>, reg_by_slot: seq<Option<nat>>, k: nat, j: nat)
    requires k < |intervals| && j < |intervals|
  {
    intervals[j].copy_hint == Some(intervals[k].slot) && HasRegister(reg_by_slot, intervals[j].slot)
  }

  /** The register of the copy source, or else of the first slot copied from this one that has one. */
  method PreferredRegister(intervals: seq<LiveInterval>, reg_by_slot: seq<Option<nat>>, k: nat) returns (r: Option<nat>)
    requires k < |intervals|
    ensures SourcePlaced(intervals, reg_by_slot, k) ==> r == reg_by_slot[intervals[k].copy_hint.value]
    ensures !SourcePlaced(intervals, reg_by_slot, k) && r.Some? ==>
      exists j: nat ::
        j < |intervals| && CopyPlaced(intervals, reg_by_slot, k, j) && r == reg_by_slot[intervals[j].slot] &&
        forall i: nat :: i < j ==> !CopyPlaced(intervals, reg_by_slot, k, i)
    ensures !SourcePlaced(intervals, reg_by_slot, k) && r.None? ==>
      forall j: nat :: j < |intervals| ==> !CopyPlaced(intervals, reg_by_slot, k, j)
  {
    if SourcePlaced(intervals, reg_by_slot, k) {
      return reg_by_slot[intervals[k].copy_hint.value];
    }
    for j := 0 to |intervals|
      invariant forall i: nat :: i < j ==> !CopyPlaced(intervals, reg_by_slot, k, i)
    {
      if CopyPlaced(intervals, reg_by_slot, k, j) {
        return reg_by_slot[intervals[j].slot];
      }
    }
    return None;
  }

  /** The preferred register if it fits, otherwise the first that does; none only if none fits. */
  method ChooseRegister(p: RuntimeProgram, intervals: seq<LiveInterval>, assigned_by_reg: seq<seq<nat>>, k: nat,
      preferred: Option<nat>) returns (r: Option<nat>)
    requires AllOrdered(intervals) && k < |intervals|
    requires forall q :: 0 <= q < |assigned_by_reg| ==> Within(assigned_by_reg[q], |intervals|)
    ensures r.Some? ==> r.value < |assigned_by_reg| && CompatibleWithAll(p, intervals, k, assigned_by_reg[r.value])
    ensures (preferred.Some? && preferred.value < |assigned_by_reg|
      && CompatibleWithAll(p, intervals, k, assigned_by_reg[preferred.value])) ==>
      r == preferred
    ensures r.Some? && r != preferred ==>
      forall q :: 0 <= q < r.value ==> !CompatibleWithAll(p, intervals, k, assigned_by_reg[q])
    ensures r.None? ==> forall q :: 0 <= q < |assigned_by_reg| ==>
      !CompatibleWithAll(p, intervals, k, assigned_by_reg[q])
  {
    hide AllOrdered;
    hide CompatibleWithAll;
    hide Within;
    if preferred.Some? && preferred.value < |assigned_by_reg| {
      var ok := CheckCompatible(p, intervals, k, assigned_by_reg[preferred.value], true);
      if ok {
        return preferred;
      }
    }
    for register := 0 to |assigned_by_reg|
      invariant preferred.Some? && preferred.value < |assigned_by_reg| ==>
        !CompatibleWithAll(p, intervals, k, assigned_by_reg[preferred.value])
      invariant forall q :: 0 <= q < register ==> !CompatibleWithAll(p, intervals, k, assigned_by_reg[q])
    {
      if preferred != Some(register) {
        var ok := CheckCompatible(p, intervals, k, assigned_by_reg[register], true);
        if ok {
          return Some(register);
        }
      }
    }
    return None;
  }

  lemma AddSharer(p: RuntimeProgram, intervals: seq<LiveInterval>, members: seq<nat>, k: nat)
    requires Sharers(p, intervals, members) && k < |intervals| && CompatibleWithAll(p, intervals, k, members)
    ensures Sharers(p, intervals, members + [k])
  {
    hide Compatible;
  }

  lemma AddToRegister(p: RuntimeProgram, intervals: seq<LiveInterval>, reg_by_slot: seq<Option<nat>>,
      assigned_by_reg: seq<seq<nat>>, k: nat, r: nat)
    requires AllOrdered(intervals) && RegistersRight(p, intervals, reg_by_slot, assigned_by_reg) && k < |intervals|
      && intervals[k].slot < p.slots
    requires r < |assigned_by_reg| && CompatibleWithAll(p, intervals, k, assigned_by_reg[r])
      && !intervals[k].force_stack
    ensures RegistersRight(p, intervals, reg_by_slot[intervals[k].slot := Some(r)],
      assigned_by_reg[r := assigned_by_reg[r] + [k]])
  {
    AddSharer(p, intervals, assigned_by_reg[r], k);
    hide Sharers;
    hide CompatibleWithAll;
    hide InSequence;
    var regs', table' := reg_by_slot[intervals[k].slot := Some(r)], assigned_by_reg[r := assigned_by_reg[r] + [k]];
    forall j | 0 <= j < |intervals| && intervals[j].slot < p.slots && regs'[intervals[j].slot].Some?
      ensures ListedFor(table', regs'[intervals[j].slot].value, j) && !intervals[j].force_stack
    {
      if j != k {
        assert intervals[j].slot != intervals[k].slot;
        assert ListedFor(assigned_by_reg, reg_by_slot[intervals[j].slot].value, j);
      }
    }
  }

  /** Some interval of the list keeps `k` out. */
  ghost predicate BlockedIn(p: RuntimeProgram, intervals: seq<LiveInterval>, k: nat, members: seq<nat>)
    requires k < |intervals|
  {
    exists j :: 0 <= j < |members| && members[j] < |intervals| && !Compatible(p, intervals[k], intervals[members[j]])
  }

  /** The lists hold only intervals that have the register. */
  ghost predicate ListsRight(p: RuntimeProgram, intervals: seq<LiveInterval>, reg_by_slot: seq<Option<nat>>,
      assigned_by_reg: seq<seq<nat>>)
  {
    forall r, i :: 0 <= r < |assigned_by_reg| && 0 <= i < |assigned_by_reg[r]| ==>
      Holder(intervals, reg_by_slot, assigned_by_reg[r][i], r)
  }

  predicate Holder(intervals: seq<LiveInterval>, reg_by_slot: seq<Option<nat>>, k: nat, r: nat) {
    k < |intervals| && intervals[k].slot < |reg_by_slot| && reg_by_slot[intervals[k].slot] == Some(r)
  }

  /** `k` has its register, may have none, or is kept out of every register. */
  ghost predicate Served(p: RuntimeProgram, intervals: seq<LiveInterval>, reg_by_slot: seq<Option<nat>>,
      assigned_by_reg: seq<seq<nat>>, k: nat)
  {
    && k < |intervals| && intervals[k].slot < |reg_by_slot|
    && (intervals[k].force_stack || reg_by_slot[intervals[k].slot].Some? ||
        forall r :: 0 <= r < |assigned_by_reg| ==> BlockedIn(p, intervals, k, assigned_by_reg[r]))
  }

  ghost predicate Serving(p: RuntimeProgram, intervals: seq<LiveInterval>, priority: seq<nat>,
      reg_by_slot: seq<Option<nat>>, assigned_by_reg: seq<seq<nat>>, n: nat)
    requires n <= |priority|
  {
    && Within(priority, |intervals|) && ListsRight(p, intervals, reg_by_slot, assigned_by_reg)
    && (forall i :: 0 <= i < n ==> Served(p, intervals, reg_by_slot, assigned_by_reg, priority[i]))
    && (forall i :: n <= i < |priority| ==> Waiting(intervals, reg_by_slot, priority[i]))
  }

  predicate Waiting(intervals: seq<LiveInterval>, reg_by_slot: seq<Option<nat>>, k: nat) {
    k < |intervals| && intervals[k].slot < |reg_by_slot| && reg_by_slot[intervals[k].slot].None?
  }

  lemma ServeOne(p: RuntimeProgram, intervals: seq<LiveInterval>, priority: seq<nat>, reg_by_slot: seq<Option<nat>>,
      assigned_by_reg: seq<seq<nat>>, n: nat, r: nat)
    requires AllOrdered(intervals) && n < |priority| && Distinct(priority)
      && Serving(p, intervals, priority, reg_by_slot, assigned_by_reg, n)
    requires r < |assigned_by_reg| && intervals[priority[n]].slot < |reg_by_slot|
    ensures var k := priority[n];
      Serving(p, intervals, priority, reg_by_slot[intervals[k].slot := Some(r)],
        assigned_by_reg[r := assigned_by_reg[r] + [k]], n + 1)
  {
    hide Compatible;
    hide InSequence;
    var k := priority[n];
    var regs', table' := reg_by_slot[intervals[k].slot := Some(r)], assigned_by_reg[r := assigned_by_reg[r] + [k]];
    assert Waiting(intervals, reg_by_slot, k);
    forall q, i | 0 <= q < |table'| && 0 <= i < |table'[q]|
      ensures Holder(intervals, regs', table'[q][i], q)
    {
      if i < |assigned_by_reg[q]| {
        assert Holder(intervals, reg_by_slot, assigned_by_reg[q][i], q);
      }
    }
    forall i | 0 <= i < n + 1
      ensures Served(p, intervals, regs', table', priority[i])
    {
      if i < n {
        assert Served(p, intervals, reg_by_slot, assigned_by_reg, priority[i]);
        StillServed(p, intervals, reg_by_slot, assigned_by_reg, priority[i], k, r);
      }
    }
    forall i | n + 1 <= i < |priority|
      ensures Waiting(intervals, regs', priority[i])
    {
      assert Waiting(intervals, reg_by_slot, priority[i]) && priority[i] != k;
      assert intervals[priority[i]].slot != intervals[k].slot;
    }
  }

  lemma StillServed(p: RuntimeProgram, intervals: seq<LiveInterval>, reg_by_slot: seq<Option<nat>>,
      assigned_by_reg: seq<seq<nat>>, j: nat, k: nat, r: nat)
    requires Served(p, intervals, reg_by_slot, assigned_by_reg, j) && k < |intervals|
      && intervals[k].slot < |reg_by_slot| && r < |assigned_by_reg|
    ensures Served(p, intervals, reg_by_slot[intervals[k].slot := Some(r)],
      assigned_by_reg[r := assigned_by_reg[r] + [k]], j)
  {
    hide Compatible;
    var table' := assigned_by_reg[r := assigned_by_reg[r] + [k]];
    forall q | 0 <= q < |table'| && BlockedIn(p, intervals, j, assigned_by_reg[q])
      ensures BlockedIn(p, intervals, j, table'[q])
    {
      var i :| 0 <= i < |assigned_by_reg[q]| && assigned_by_reg[q][i] < |intervals|
        && !Compatible(p, intervals[j], intervals[assigned_by_reg[q][i]]);
      assert table'[q][i] == assigned_by_reg[q][i];
    }
  }

  lemma ServeNone(p: RuntimeProgram, intervals: seq<LiveInterval>, priority: seq<nat>, reg_by_slot: seq<Option<nat>>,
      assigned_by_reg: seq<seq<nat>>, n: nat)
    requires n < |priority| && Serving(p, intervals, priority, reg_by_slot, assigned_by_reg, n)
    requires intervals[priority[n]].force_stack || forall q :: 0 <= q < |assigned_by_reg| ==>
      Within(assigned_by_reg[q], |intervals|) && !CompatibleWithAll(p, intervals, priority[n], assigned_by_reg[q])
    ensures Serving(p, intervals, priority, reg_by_slot, assigned_by_reg, n + 1)
  {
    hide Compatible;
    assert Waiting(intervals, reg_by_slot, priority[n]);
  }

  /** An interval is left without a register only if every register has one it must not share with. */
  ghost predicate SpilledOnlyIfFull(p: RuntimeProgram, intervals: seq<LiveInterval>, reg_by_slot: seq<Option<nat>>,
      registers: nat)
  {
    forall k: nat, r: nat ::
      k < |intervals| && r < registers && !intervals[k].force_stack && Waiting(intervals, reg_by_slot, k) ==>
      KeptOut(p, intervals, reg_by_slot, k, r)
  }

  ghost predicate KeptOut(p: RuntimeProgram, intervals: seq<LiveInterval>, reg_by_slot: seq<Option<nat>>, k: nat,
      r: nat)
    requires k < |intervals|
  {
    exists j: nat :: Holder(intervals, reg_by_slot, j, r) && !Compatible(p, intervals[k], intervals[j])
  }

  lemma AllServed(p: RuntimeProgram, intervals: seq<LiveInterval>, priority: seq<nat>, reg_by_slot: seq<Option<nat>>,
      assigned_by_reg: seq<seq<nat>>)
    requires IsPermutation(priority, |intervals|)
      && Serving(p, intervals, priority, reg_by_slot, assigned_by_reg, |priority|)
    ensures SpilledOnlyIfFull(p, intervals, reg_by_slot, |assigned_by_reg|)
  {
    hide Compatible;
    forall k: nat, r: nat | k < |intervals| && r < |assigned_by_reg| && !intervals[k].force_stack
      && Waiting(intervals, reg_by_slot, k)
      ensures KeptOut(p, intervals, reg_by_slot, k, r)
    {
      assert k in priority;
      var i :| 0 <= i < |priority| && priority[i] == k;
      assert Served(p, intervals, reg_by_slot, assigned_by_reg, priority[i]);
      assert BlockedIn(p, intervals, k, assigned_by_reg[r]);
      var j :| 0 <= j < |assigned_by_reg[r]| && assigned_by_reg[r][j] < |intervals|
        && !Compatible(p, intervals[k], intervals[assigned_by_reg[r][j]]);
      assert Holder(intervals, reg_by_slot, assigned_by_reg[r][j], r);
    }
  }

  /** Registers for the intervals that may have one, in the order of priority. */
  method AssignRegisters(p: RuntimeProgram, intervals: seq<LiveInterval>, priority: seq<nat>, registers: nat)
      returns (reg_by_slot: seq<Option<nat>>, assigned_by_reg: seq<seq<nat>>)
    requires AllOrdered(intervals) && (forall k :: 0 <= k < |intervals| ==> intervals[k].slot < p.slots)
    requires IsPermutation(priority, |intervals|)
    ensures RegistersRight(p, intervals, reg_by_slot, assigned_by_reg) && |assigned_by_reg| == registers
    ensures SpilledOnlyIfFull(p, intervals, reg_by_slot, registers)
  {
    reg_by_slot := seq(p.slots, _ => None);
    assigned_by_reg := seq(registers, _ => []);
    PermutationSize(priority, |intervals|);
    for n := 0 to |priority|
      invariant RegistersRight(p, intervals, reg_by_slot, assigned_by_reg) && |assigned_by_reg| == registers
      invariant Serving(p, intervals, priority, reg_by_slot, assigned_by_reg, n)
    {
      var k := priority[n];
      if intervals[k].force_stack {
        ServeNone(p, intervals, priority, reg_by_slot, assigned_by_reg, n);
      } else {
        hide Serving;
        var preferred := PreferredRegister(intervals, reg_by_slot, k);
        assert forall r :: 0 <= r < |assigned_by_reg| ==> Sharers(p, intervals, assigned_by_reg[r]);
        var register := ChooseRegister(p, intervals, assigned_by_reg, k, preferred);
        if register.Some? {
          AddToRegister(p, intervals, reg_by_slot, assigned_by_reg, k, register.value);
          ServeOne(p, intervals, priority, reg_by_slot, assigned_by_reg, n, register.value);
          hide RegistersRight;
          hide AllOrdered;
          hide CompatibleWithAll;
          reg_by_slot := reg_by_slot[intervals[k].slot := Some(register.value)];
          assigned_by_reg := assigned_by_reg[register.value := assigned_by_reg[register.value] + [k]];
        } else {
          ServeNone(p, intervals, priority, reg_by_slot, assigned_by_reg, n);
        }
      }
    }
    AllServed(p, intervals, priority, reg_by_slot, assigned_by_reg);
  }

  // ----- the stack -----

  /** Words below `base` belong to one slot each; word `base + c` is shared by the occupants of colour `c`. */
  ghost predicate StackRight(p: RuntimeProgram, intervals: seq<LiveInterval>, words: seq<Option<nat>>, base: nat,
      colors: seq<seq<nat>>)
  {
    && |words| == p.slots
    && (forall c :: 0 <= c < |colors| ==> Occupants(intervals, colors[c]))
    && (forall k :: 0 <= k < |intervals| && intervals[k].slot < p.slots && words[intervals[k].slot].Some? ==>
         WordRight(intervals, base, colors, k, words[intervals[k].slot].value))
    && OneSlotEach(words, base)
  }

  ghost predicate Occupants(intervals: seq<LiveInterval>, members: seq<nat>) {
    Within(members, |intervals|) &&
    forall i, j :: 0 <= i < j < |members| ==> !Overlap(intervals[members[i]].segments, intervals[members[j]].segments)
  }

  ghost predicate WordRight(intervals: seq<LiveInterval>, base: nat, colors: seq<seq<nat>>, k: nat, word: nat)
    requires k < |intervals|
  {
    if intervals[k].force_stack then word < base else base <= word && ListedFor(colors, word - base, k)
  }

  ghost predicate OneSlotEach(words: seq<Option<nat>>, base: nat) {
    forall x, y :: 0 <= x < y < |words| && words[x].Some? && words[x].value < base ==> words[x] != words[y]
  }

  method IntervalBySlot(p: RuntimeProgram, intervals: seq<LiveInterval>) returns (interval_by_slot: seq<Option<nat>>)
    requires AllOrdered(intervals) && (forall k :: 0 <= k < |intervals| ==> intervals[k].slot < p.slots)
    ensures |interval_by_slot| == p.slots
    ensures forall k: nat :: k < |intervals| ==> interval_by_slot[intervals[k].slot] == Some(k)
    ensures forall x :: 0 <= x < p.slots && interval_by_slot[x].Some? ==>
      interval_by_slot[x].value < |intervals| && intervals[interval_by_slot[x].value].slot == x
  {
    hide InSequence;
    interval_by_slot := seq(p.slots, _ => None);
    for k := 0 to |intervals|
      invariant |interval_by_slot| == p.slots
      invariant forall j: nat :: j < k ==> interval_by_slot[intervals[j].slot] == Some(j)
      invariant forall x :: 0 <= x < p.slots && interval_by_slot[x].Some? ==>
        interval_by_slot[x].value < k && intervals[interval_by_slot[x].value].slot == x
    {
      interval_by_slot := interval_by_slot[intervals[k].slot := Some(k)];
    }
  }

  predicate KeepsOwnWord(intervals: seq<LiveInterval>, packed_byte: seq<bool>, k: nat)
    requires k < |intervals|
  {
    intervals[k].force_stack && !(intervals[k].slot < |packed_byte| && packed_byte[intervals[k].slot])
  }

  /** Addressable slots get words of their own, in descending slot order. */
  method AssignOwnWords(p: RuntimeProgram, intervals: seq<LiveInterval>, packed_byte: seq<bool>)
      returns (words: seq<Option<nat>>, base: nat)
    requires AllOrdered(intervals) && (forall k :: 0 <= k < |intervals| ==> intervals[k].slot < p.slots)
    ensures StackRight(p, intervals, words, base, [])
    ensures forall k: nat :: k < |intervals| ==>
      (words[intervals[k].slot].Some? <==> KeepsOwnWord(intervals, packed_byte, k))
  {
    var interval_by_slot := IntervalBySlot(p, intervals);
    hide AllOrdered;
    words := seq(p.slots, _ => None);
    base := 0;
    for x := p.slots downto 0
      invariant |words| == p.slots && OneSlotEach(words, base)
      invariant forall y :: 0 <= y < p.slots && words[y].Some? ==> words[y].value < base && interval_by_slot[y].Some?
      invariant forall y :: 0 <= y < p.slots ==>
        (words[y].Some? <==>
          y >= x && interval_by_slot[y].Some? && KeepsOwnWord(intervals, packed_byte, interval_by_slot[y].value))
    {
      if interval_by_slot[x].Some? && KeepsOwnWord(intervals, packed_byte, interval_by_slot[x].value) {
        words := words[x := Some(base)];
        base := base + 1;
      }
    }
  }

  /** The first colour whose occupants `k` never overlaps, or the number of colours. */
  method FindColor(p: RuntimeProgram, intervals: seq<LiveInterval>, colors: seq<seq<nat>>, k: nat) returns (c: nat)
    requires AllOrdered(intervals) && k < |intervals|
    requires forall d :: 0 <= d < |colors| ==> Within(colors[d], |intervals|)
    ensures c <= |colors| && (c < |colors| ==> DisjointFromAll(intervals, k, colors[c]))
    ensures forall d :: 0 <= d < c ==> !DisjointFromAll(intervals, k, colors[d])
  {
    hide AllOrdered;
    hide DisjointFromAll;
    for d := 0 to |colors|
      invariant forall e :: 0 <= e < d ==> !DisjointFromAll(intervals, k, colors[e])
    {
      var ok := CheckCompatible(p, intervals, k, colors[d], false);
      if ok {
        return d;
      }
    }
    return |colors|;
  }

  lemma AddOccupant(p: RuntimeProgram, intervals: seq<LiveInterval>, words: seq<Option<nat>>, base: nat,
      colors: seq<seq<nat>>, k: nat, c: nat)
    requires AllOrdered(intervals) && StackRight(p, intervals, words, base, colors) && k < |intervals|
      && intervals[k].slot < p.slots
    requires !intervals[k].force_stack && c <= |colors|
      && (c < |colors| ==> Within(colors[c], |intervals|) && DisjointFromAll(intervals, k, colors[c]))
    ensures
      var colors' := if c < |colors| then colors[c := colors[c] + [k]] else colors + [[k]];
      StackRight(p, intervals, words[intervals[k].slot := Some(base + c)], base, colors')
  {
    var colors' := if c < |colors| then colors[c := colors[c] + [k]] else colors + [[k]];
    var words' := words[intervals[k].slot := Some(base + c)];
    hide InSequence;
    hide Overlap;
    if c < |colors| {
      assert Occupants(intervals, colors[c]);
      OneMore(intervals, colors[c], k);
    }
    hide DisjointFromAll;
    forall d | 0 <= d < |colors'|
      ensures Occupants(intervals, colors'[d])
    {
      assert d < |colors| ==> Occupants(intervals, colors[d]);
    }
    hide Occupants;
    forall j | 0 <= j < |intervals| && intervals[j].slot < p.slots && words'[intervals[j].slot].Some?
      ensures WordRight(intervals, base, colors', j, words'[intervals[j].slot].value)
    {
      if j != k {
        assert intervals[j].slot != intervals[k].slot;
        assert WordRight(intervals, base, colors, j, words[intervals[j].slot].value);
      }
    }
  }

  lemma OneMore(intervals: seq<LiveInterval>, members: seq<nat>, k: nat)
    requires Occupants(intervals, members) && k < |intervals| && DisjointFromAll(intervals, k, members)
    ensures Occupants(intervals, members + [k])
  {}

  /** Spilled scalars share words where their lifetimes allow. */
  method AssignSharedWords(p: RuntimeProgram, intervals: seq<LiveInterval>, reg_by_slot: seq<Option<nat>>,
      spill_order: seq<nat>, own: seq<Option<nat>>, base: nat)
    returns (words: seq<Option<nat>>, colors: seq<seq<nat>>)
    requires AllOrdered(intervals) && (forall k :: 0 <= k < |intervals| ==> intervals[k].slot < p.slots)
    requires |reg_by_slot| == p.slots && IsPermutation(spill_order, |intervals|)
      && StackRight(p, intervals, own, base, [])
    ensures StackRight(p, intervals, words, base, colors)
    ensures forall k: nat :: k < |intervals| ==> (own[intervals[k].slot].Some? ==> words[intervals[k].slot].Some?)
    ensures forall k: nat :: k < |intervals| && !intervals[k].force_stack && reg_by_slot[intervals[k].slot].None? ==>
      words[intervals[k].slot].Some?
  {
    words := own;
    PermutationSize(spill_order, |intervals|);
    var stack_colors: seq<seq<nat>> := [];
    for n := 0 to |spill_order|
      invariant StackRight(p, intervals, words, base, stack_colors)
      invariant forall x :: 0 <= x < p.slots && own[x].Some? ==> words[x].Some?
      invariant forall m ::
        0 <= m < n && !intervals[spill_order[m]].force_stack && reg_by_slot[intervals[spill_order[m]].slot].None? ==>
        words[intervals[spill_order[m]].slot].Some?
    {
      var k := spill_order[n];
      if !intervals[k].force_stack && reg_by_slot[intervals[k].slot].None? {
        assert forall d :: 0 <= d < |stack_colors| ==> Occupants(intervals, stack_colors[d]);
        var c := FindColor(p, intervals, stack_colors, k);
        AddOccupant(p, intervals, words, base, stack_colors, k, c);
        assert |words| == p.slots;
        hide StackRight;
        hide AllOrdered;
        hide DisjointFromAll;
        stack_colors := if c < |stack_colors| then stack_colors[c := stack_colors[c] + [k]] else stack_colors + [[k]];
        words := words[intervals[k].slot := Some(base + c)];
      }
    }
    colors := stack_colors;
    forall k: nat | k < |intervals| && !intervals[k].force_stack && reg_by_slot[intervals[k].slot].None?
      ensures words[intervals[k].slot].Some?
    {
      assert k in spill_order;
    }
  }

  // ----- the whole map -----

  /** Two slots in one place never overlap, or only at the copy from one to the other. */
  ghost predicate Coloured(p: RuntimeProgram, intervals: seq<LiveInterval>, m: RuntimeSlotMap) {
    forall j, k :: 0 <= j < k < |intervals| && m.LocationOf(intervals[j].slot) == m.LocationOf(intervals[k].slot) ==>
      MayShare(p, intervals[j], intervals[k])
  }

  lemma SlotsColoured(p: RuntimeProgram, intervals: seq<LiveInterval>, m: RuntimeSlotMap,
      assigned_by_reg: seq<seq<nat>>, base: nat, colors: seq<seq<nat>>)
    requires AllOrdered(intervals) && (forall k :: 0 <= k < |intervals| ==> intervals[k].slot < p.slots)
    requires RegistersRight(p, intervals, m.reg_by_slot, assigned_by_reg)
      && StackRight(p, intervals, m.stack_index_by_slot, base, colors)
    ensures Coloured(p, intervals, m)
  {
    hide InSequence;
    hide MayShare;
    forall j, k | 0 <= j < k < |intervals| && m.LocationOf(intervals[j].slot) == m.LocationOf(intervals[k].slot)
      ensures MayShare(p, intervals[j], intervals[k])
    {
      assert intervals[j].slot != intervals[k].slot;
      if m.LocationOf(intervals[j].slot).Register? {
        var r := m.reg_by_slot[intervals[j].slot].value;
        assert ListedFor(assigned_by_reg, r, j) && ListedFor(assigned_by_reg, r, k);
        SharersShare(p, intervals, assigned_by_reg[r], j, k);
      } else {
        var word := m.stack_index_by_slot[intervals[j].slot].value;
        assert WordRight(intervals, base, colors, j, word) && WordRight(intervals, base, colors, k, word);
        OwnWord(m.stack_index_by_slot, base, intervals[j].slot, intervals[k].slot);
        OccupantsShare(p, intervals, colors[word - base], j, k);
      }
    }
  }

  lemma OwnWord(words: seq<Option<nat>>, base: nat, x: nat, y: nat)
    requires OneSlotEach(words, base) && x < |words| && y < |words| && x != y && words[x].Some? && words[x] == words[y]
    ensures words[x].value >= base
  {}

  lemma SharersShare(p: RuntimeProgram, intervals: seq<LiveInterval>, members: seq<nat>, j: nat, k: nat)
    requires Sharers(p, intervals, members) && j in members && k in members && j != k
    ensures j < |intervals| && k < |intervals| && MayShare(p, intervals[j], intervals[k])
  {
    hide Compatible;
    var a: nat :| a < |members| && members[a] == j;
    var b: nat :| b < |members| && members[b] == k;
    assert a < b ==> MayShare(p, intervals[members[a]], intervals[members[b]]);
    assert b < a ==> MayShare(p, intervals[members[b]], intervals[members[a]]);
  }

  lemma OccupantsShare(p: RuntimeProgram, intervals: seq<LiveInterval>, members: seq<nat>, j: nat, k: nat)
    requires Occupants(intervals, members) && j in members && k in members && j != k
    ensures j < |intervals| && k < |intervals| && MayShare(p, intervals[j], intervals[k])
  {
    var a: nat :| a < |members| && members[a] == j;
    var b: nat :| b < |members| && members[b] == k;
    assert a < b ==> !Overlap(intervals[members[a]].segments, intervals[members[b]].segments);
    assert b < a ==> !Overlap(intervals[members[b]].segments, intervals[members[a]].segments);
  }

  /** `RuntimeSlotMap::from_lir`, for any priorities: every interval gets a place, and places are shared
      only where that is safe. */
  method FromLir(p: RuntimeProgram, intervals: seq<LiveInterval>, packed_byte: seq<bool>, registers: nat,
      priority: seq<nat>, spill_order: seq<nat>) returns (m: RuntimeSlotMap)
    requires AllOrdered(intervals) && (forall k :: 0 <= k < |intervals| ==> intervals[k].slot < p.slots)
    requires IsPermutation(priority, |intervals|) && IsPermutation(spill_order, |intervals|)
    ensures Coloured(p, intervals, m)
    ensures forall k :: 0 <= k < |intervals| ==> !m.LocationOf(intervals[k].slot).Nowhere?
    ensures forall k :: 0 <= k < |intervals| && intervals[k].force_stack ==> !m.LocationOf(intervals[k].slot).Register?
    ensures forall j, k :: 0 <= j < |intervals| && 0 <= k < |intervals| && j != k && intervals[j].force_stack ==>
      m.LocationOf(intervals[j].slot) != m.LocationOf(intervals[k].slot)
    ensures SpilledOnlyIfFull(p, intervals, m.reg_by_slot, registers)
  {
    PermutationSize(priority, |intervals|);
    var reg_by_slot, assigned_by_reg := AssignRegisters(p, intervals, priority, registers);
    var own, base := AssignOwnWords(p, intervals, packed_byte);
    var words, colors := AssignSharedWords(p, intervals, reg_by_slot, spill_order, own, base);
    m := RuntimeSlotMap(reg_by_slot, words, packed_byte);
    SlotsColoured(p, intervals, m, assigned_by_reg, base, colors);
    forall j, k | 0 <= j < |intervals| && 0 <= k < |intervals| && j != k && intervals[j].force_stack
      ensures m.LocationOf(intervals[j].slot) != m.LocationOf(intervals[k].slot)
    {
      AloneInPlace(p, intervals, m, assigned_by_reg, base, colors, j, k);
    }
  }

  lemma AloneInPlace(p: RuntimeProgram, intervals: seq<LiveInterval>, m: RuntimeSlotMap, assigned_by_reg: seq<seq<nat>>,
      base: nat, colors: seq<seq<nat>>, j: nat, k: nat)
    requires AllOrdered(intervals) && (forall i :: 0 <= i < |intervals| ==> intervals[i].slot < p.slots)
    requires RegistersRight(p, intervals, m.reg_by_slot, assigned_by_reg)
      && StackRight(p, intervals, m.stack_index_by_slot, base, colors)
    requires j < |intervals| && k < |intervals| && j != k && intervals[j].force_stack
    ensures m.LocationOf(intervals[j].slot) != m.LocationOf(intervals[k].slot)
  {
    assert intervals[j].slot != intervals[k].slot;
    if m.LocationOf(intervals[j].slot).StackWord?
      && m.LocationOf(intervals[j].slot) == m.LocationOf(intervals[k].slot)
    {
      OwnWord(m.stack_index_by_slot, base, intervals[j].slot, intervals[k].slot);
    }
  }
}
