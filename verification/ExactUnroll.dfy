/** `runtime_exact_unroll_emission_plan`: guards that an unrolled loop does not need. */
module ExactUnroll {
  import opened Words
  import opened Ir
  import opened Semantics
  import opened Blocks
  import opened Fusion

  /** A loop whose trip count is found to be a multiple of its number of guards. */
  datatype UnrolledLoop = UnrolledLoop(header: nat, latch: nat, induction: nat, start: u64, limit: u64)

  predicate IsGuard(p: RuntimeProgram, l: UnrolledLoop, i: nat) {
    l.header <= i < l.latch && i < |p.instrs| &&
    p.instrs[i] == JumpIfCmpFalse(LtUnsigned, Slot(l.induction), Imm(l.limit), l.latch + 1)
  }

  predicate IsUnit(p: RuntimeProgram, l: UnrolledLoop, i: nat) {
    l.header <= i < l.latch && i < |p.instrs| && p.instrs[i] == BinOpInPlace(l.induction, Add, Imm(1))
  }

  /** The guards, and the unit increments, before instruction `to` of the loop. */
  function Guards(p: RuntimeProgram, l: UnrolledLoop, to: nat): nat {
    if to <= l.header then 0 else Guards(p, l, to - 1) + (if IsGuard(p, l, to - 1) then 1 else 0)
  }

  function Units(p: RuntimeProgram, l: UnrolledLoop, to: nat): nat {
    if to <= l.header then 0 else Units(p, l, to - 1) + (if IsUnit(p, l, to - 1) then 1 else 0)
  }

  /** The last write of slot `x` before instruction `to`. */
  function LastWrite(p: RuntimeProgram, x: nat, to: nat): (r: Option<nat>)
    requires to <= |p.instrs|
    ensures r.Some? ==> r.value < to && x in WriteSlots(p.instrs[r.value])
  {
    if to == 0 then None
    else if x in WriteSlots(p.instrs[to - 1]) then Some(to - 1)
    else LastWrite(p, x, to - 1)
  }

  predicate StartsWith(p: RuntimeProgram, x: nat, header: nat, start: u64)
    requires header <= |p.instrs|
  {
    LastWrite(p, x, header).Some? && p.instrs[LastWrite(p, x, header).value] == Mov(x, Imm(start))
  }

  predicate InUnrolled(p: RuntimeProgram, l: UnrolledLoop, i: nat)
    requires i < |p.instrs|
  {
    IsGuard(p, l, i) || IsUnit(p, l, i) || (l.induction !in WriteSlots(p.instrs[i]) && !IsControl(p.instrs[i]))
  }

  predicate BodyFits(p: RuntimeProgram, l: UnrolledLoop, to: nat)
    requires to <= |p.instrs|
  {
    forall i :: l.header <= i < to ==> InUnrolled(p, l, i)
  }

  predicate HasUnrolledShape(p: RuntimeProgram, l: UnrolledLoop) {
    && l.header < l.latch < |p.instrs| && p.instrs[l.latch] == Jump(l.header) && IsGuard(p, l, l.header)
    && StartsWith(p, l.induction, l.header, l.start) && l.start <= l.limit
  }

  /** The loops the plan takes. */
  predicate IsUnrolledLoop(p: RuntimeProgram, l: UnrolledLoop) {
    && HasUnrolledShape(p, l) && BodyFits(p, l, l.latch)
    && Guards(p, l, l.latch) >= 2 && Guards(p, l, l.latch) == Units(p, l, l.latch)
    && (l.limit - l.start) % Guards(p, l, l.latch) == 0
  }

  /** Something in the body besides guards and increments reads the induction slot. */
  predicate UsedByBody(p: RuntimeProgram, l: UnrolledLoop) {
    exists i :: l.header <= i < l.latch && i < |p.instrs| && !IsGuard(p, l, i) && !IsUnit(p, l, i)
      && ReadsSlot(p.instrs[i], l.induction)
  }

  // ----- the plan -----

  datatype UnrollPlan = UnrollPlan(suppress_guard: seq<bool>, induction_increment: seq<Option<nat>>)

  predicate Suppresses(p: RuntimeProgram, l: UnrolledLoop, i: nat) {
    IsGuard(p, l, i) && i != l.header
  }

  /** Increments are merged into the last one when the body does not look at the induction slot. */
  function MergedAmount(p: RuntimeProgram, l: UnrolledLoop, i: nat): nat {
    if Units(p, l, i + 1) == Units(p, l, l.latch) then Units(p, l, l.latch) else 0
  }

  predicate Merges(p: RuntimeProgram, l: UnrolledLoop, i: nat) {
    IsUnit(p, l, i) && !UsedByBody(p, l)
  }

  ghost predicate UnrollRight(p: RuntimeProgram, loops: set<UnrolledLoop>, plan: UnrollPlan) {
    && |plan.suppress_guard| == |plan.induction_increment| == |p.instrs|
    && (forall l :: l in loops ==> IsUnrolledLoop(p, l))
    && (forall i: nat :: i < |p.instrs| ==> (plan.suppress_guard[i] <==> exists l :: l in loops && Suppresses(p, l, i)))
    && (forall i: nat :: i < |p.instrs| ==> IncrementRight(p, loops, i, plan.induction_increment[i]))
  }

  ghost predicate IncrementRight(p: RuntimeProgram, loops: set<UnrolledLoop>, i: nat, amount: Option<nat>) {
    && (amount.Some? ==> exists l :: l in loops && Merges(p, l, i) && amount.value == MergedAmount(p, l, i))
    && (amount.None? ==> forall l :: l in loops ==> !Merges(p, l, i))
  }

  method MatchUnrolled(p: RuntimeProgram, latch: nat) returns (r: Option<UnrolledLoop>)
    requires latch < |p.instrs|
    ensures r.Some? ==> r.value.latch == latch && HasUnrolledShape(p, r.value)
    ensures forall l: UnrolledLoop :: l.latch == latch && HasUnrolledShape(p, l) ==> r == Some(l)
  {
    var instr := p.instrs[latch];
    if !instr.Jump? || instr.target >= latch {
      return None;
    }
    var header := instr.target;
    var guard := p.instrs[header];
    if !(guard.JumpIfCmpFalse? && guard.cmp == LtUnsigned && guard.lhs.Slot? && guard.rhs.Imm?
      && guard.target == latch + 1)
    {
      return None;
    }
    var x := guard.lhs.slot;
    var written := LastWrite(p, x, header);
    hide LastWrite;
    if written.None? {
      return None;
    }
    var definition := p.instrs[written.value];
    if !(definition.Mov? && definition.dst == x && definition.src.Imm? && definition.src.imm <= guard.rhs.imm) {
      return None;
    }
    return Some(UnrolledLoop(header, latch, x, definition.src.imm, guard.rhs.imm));
  }

  /** Count the guards and the increments, unless something else gets in the way. */
  method CountBody(p: RuntimeProgram, l: UnrolledLoop) returns (ok: bool, guards: nat, units: nat)
    requires l.header < l.latch < |p.instrs|
    ensures ok <==> BodyFits(p, l, l.latch)
    ensures ok ==> guards == Guards(p, l, l.latch) && units == Units(p, l, l.latch)
  {
    hide IsControl;
    hide WriteSlots;
    ok, guards, units := true, 0, 0;
    for i := l.header to l.latch
      invariant ok && BodyFits(p, l, i) && guards == Guards(p, l, i) && units == Units(p, l, i)
    {
      if IsGuard(p, l, i) {
        guards := guards + 1;
      } else if IsUnit(p, l, i) {
        units := units + 1;
      } else if !InUnrolled(p, l, i) {
        return false, 0, 0;
      }
    }
  }

  method FindUnrolled(p: RuntimeProgram, latch: nat) returns (r: Option<UnrolledLoop>)
    requires latch < |p.instrs|
    ensures r.Some? ==> r.value.latch == latch && IsUnrolledLoop(p, r.value)
    ensures forall l: UnrolledLoop :: l.latch == latch && IsUnrolledLoop(p, l) ==> r == Some(l)
  {
    r := MatchUnrolled(p, latch);
    if r.Some? {
      var l := r.value;
      assert l.header < l.latch < |p.instrs| && l.start <= l.limit;
      hide HasUnrolledShape;
      var ok, guards, units := CountBody(p, l);
      hide BodyFits;
      if !ok || guards < 2 || guards != units || (l.limit - l.start) % guards != 0 {
        return None;
      }
    }
  }

  method ExactUnrollEmissionPlan(p: RuntimeProgram) returns (plan: UnrollPlan, loops: set<UnrolledLoop>)
    ensures UnrollRight(p, loops, plan)
    ensures forall l: UnrolledLoop :: l in loops <==> IsUnrolledLoop(p, l)
  {
    var len := |p.instrs|;
    plan := UnrollPlan(seq(len, _ => false), seq(len, _ => None));
    loops := {};
    hide IsUnrolledLoop;
    for latch := 0 to len
      invariant UnrollRight(p, loops, plan)
      invariant forall l: UnrolledLoop :: l in loops <==> l.latch < latch && IsUnrolledLoop(p, l)
    {
      var found := FindUnrolled(p, latch);
      if found.Some? {
        plan := PlanUnrolled(p, plan, loops, found.value);
        hide UnrollRight;
        loops := loops + {found.value};
      }
    }
    forall l: UnrolledLoop | IsUnrolledLoop(p, l)
      ensures l.latch < len
    {
      UnrolledBounds(p, l);
    }
  }

  lemma UnrolledBounds(p: RuntimeProgram, l: UnrolledLoop)
    requires IsUnrolledLoop(p, l)
    ensures l.header < l.latch < |p.instrs| && l.start <= l.limit && HasUnrolledShape(p, l)
  {
    hide BodyFits;
    hide StartsWith;
  }

  /** Mark the guards and increments of one more loop. */
  method PlanUnrolled(p: RuntimeProgram, before: UnrollPlan, ghost loops: set<UnrolledLoop>, l: UnrolledLoop)
      returns (plan: UnrollPlan)
    requires UnrollRight(p, loops, before) && IsUnrolledLoop(p, l)
    ensures UnrollRight(p, loops + {l}, plan)
  {
    UnrolledBounds(p, l);
    hide IsUnrolledLoop;
    var suppress := SuppressGuards(p, before.suppress_guard, l);
    var amounts := before.induction_increment;
    if !UsedByBody(p, l) {
      amounts := MergeIncrements(p, amounts, l);
    }
    plan := UnrollPlan(suppress, amounts);
    UnrolledRight(p, before, loops, l, plan);
  }

  method SuppressGuards(p: RuntimeProgram, before: seq<bool>, l: UnrolledLoop) returns (suppress: seq<bool>)
    requires |before| == |p.instrs| && l.header < l.latch < |p.instrs|
    ensures |suppress| == |before| && forall i: nat :: i < |p.instrs| ==>
      (suppress[i] <==> before[i] || Suppresses(p, l, i))
  {
    suppress := before;
    for i := l.header + 1 to l.latch
      invariant |suppress| == |before|
      invariant forall k: nat :: k < |p.instrs| ==> (suppress[k] <==> before[k] || (Suppresses(p, l, k) && k < i))
    {
      if IsGuard(p, l, i) {
        suppress := suppress[i := true];
      }
    }
  }

  method MergeIncrements(p: RuntimeProgram, before: seq<Option<nat>>, l: UnrolledLoop)
      returns (amounts: seq<Option<nat>>)
    requires |before| == |p.instrs| && l.header < l.latch < |p.instrs|
    ensures |amounts| == |before|
    ensures forall i: nat :: i < |p.instrs| ==>
      amounts[i] == if IsUnit(p, l, i) then Some(MergedAmount(p, l, i)) else before[i]
  {
    amounts := before;
    for i := l.header to l.latch
      invariant |amounts| == |before|
      invariant forall k: nat :: k < |p.instrs| ==>
        amounts[k] == if IsUnit(p, l, k) && k < i then Some(MergedAmount(p, l, k)) else before[k]
    {
      if IsUnit(p, l, i) {
        amounts := amounts[i := Some(MergedAmount(p, l, i))];
      }
    }
  }

  lemma UnrolledRight(p: RuntimeProgram, before: UnrollPlan, loops: set<UnrolledLoop>, l: UnrolledLoop,
      plan: UnrollPlan)
    requires UnrollRight(p, loops, before) && IsUnrolledLoop(p, l)
    requires |plan.suppress_guard| == |plan.induction_increment| == |p.instrs|
    requires forall i: nat :: i < |p.instrs| ==>
      (plan.suppress_guard[i] <==> before.suppress_guard[i] || Suppresses(p, l, i))
    requires forall i: nat :: i < |p.instrs| ==>
      plan.induction_increment[i] == if Merges(p, l, i)
        then Some(MergedAmount(p, l, i)) else before.induction_increment[i]
    ensures UnrollRight(p, loops + {l}, plan)
  {
    hide IsUnrolledLoop;
    hide Suppresses;
    hide Merges;
    hide MergedAmount;
    var loops' := loops + {l};
    assert l in loops';
    forall i: nat | i < |p.instrs|
      ensures IncrementRight(p, loops', i, plan.induction_increment[i])
      ensures plan.suppress_guard[i] <==> exists k :: k in loops' && Suppresses(p, k, i)
    {
      assert IncrementRight(p, loops, i, before.induction_increment[i]);
    }
  }
}
