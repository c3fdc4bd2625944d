/** `runtime_counted_loop_emission_plan`: loops whose induction slot only controls them. */
module CountedLoops {
  import opened Words
  import opened Ir
  import opened Semantics
  import opened Blocks
  import opened Fusion

  /** The loop that starts at `header` and jumps back from `latch`. */
  datatype CountedLoop = CountedLoop(header: nat, latch: nat, induction: nat, start: u64, limit: u64)

  /** Instruction `i` adds a positive constant to slot `x`. */
  predicate IsIncrement(p: RuntimeProgram, x: nat, i: nat) {
    i < |p.instrs| && p.instrs[i].BinOpInPlace? && p.instrs[i].dst == x && p.instrs[i].op == Add &&
    p.instrs[i].rhs.Imm? && p.instrs[i].rhs.imm > 0
  }

  /** How much the instructions `from` to `to - 1` add to slot `x`. */
  function Increase(p: RuntimeProgram, x: nat, from: nat, to: nat): nat {
    if to <= from then 0
    else Increase(p, x, from, to - 1) + (if IsIncrement(p, x, to - 1) then p.instrs[to - 1].rhs.imm else 0)
  }

  predicate TouchesSlot(i: RuntimeInstr, x: nat) {
    ReadsSlot(i, x) || x in WriteSlots(i)
  }

  /** What the body may hold: jumps to the next instruction, increments, and what leaves the slot alone. */
  predicate InBody(p: RuntimeProgram, x: nat, i: nat)
    requires i < |p.instrs|
  {
    p.instrs[i] == Jump(i + 1) || IsIncrement(p, x, i) || (!TouchesSlot(p.instrs[i], x) && !IsControl(p.instrs[i]))
  }

  predicate HasShape(p: RuntimeProgram, l: CountedLoop) {
    && 0 < l.header < l.latch && l.latch + 1 < |p.instrs|
    && p.instrs[l.latch] == Jump(l.header)
    && p.instrs[l.header - 1] == Mov(l.induction, Imm(l.start))
    && p.instrs[l.header] == JumpIfCmpFalse(LtUnsigned, Slot(l.induction), Imm(l.limit), l.latch + 1)
    && l.start < l.limit
  }

  predicate NoOtherEntry(p: RuntimeProgram, l: CountedLoop) {
    forall i :: 0 <= i < |p.instrs| && i != l.latch ==> TargetOf(p.instrs[i]) != Some(l.header)
  }

  predicate BodyOk(p: RuntimeProgram, l: CountedLoop, to: nat)
    requires to <= |p.instrs|
  {
    forall i :: l.header < i < to ==> InBody(p, l.induction, i)
  }

  predicate InLoop(l: CountedLoop, i: nat) {
    l.header <= i <= l.latch
  }

  predicate Controls(p: RuntimeProgram, l: CountedLoop, i: nat) {
    i == l.header || (l.header < i < l.latch && IsIncrement(p, l.induction, i))
  }

  /** Nothing but the guard and the increments reads the induction slot. */
  predicate OnlyControls(p: RuntimeProgram, l: CountedLoop) {
    forall i :: 0 <= i < |p.instrs| && !Controls(p, l, i) ==> !ReadsSlot(p.instrs[i], l.induction)
  }

  function StepSize(p: RuntimeProgram, l: CountedLoop): nat {
    Increase(p, l.induction, l.header + 1, l.latch)
  }

  function Iterations(p: RuntimeProgram, l: CountedLoop): nat
    requires StepSize(p, l) > 0 && l.start <= l.limit
  {
    DivCeil(l.limit - l.start, StepSize(p, l))
  }

  function DivCeil(d: nat, k: nat): nat
    requires k > 0
  {
    DivDivide(d, k);
    if d % k == 0 then d / k else d / k + 1
  }

  /** The loops the plan takes. */
  predicate IsCountedLoop(p: RuntimeProgram, l: CountedLoop) {
    && HasShape(p, l) && NoOtherEntry(p, l) && BodyOk(p, l, l.latch)
    && StepSize(p, l) < WORD && OnlyControls(p, l) && TripOk(l, StepSize(p, l))
  }

  /** The trip count is not zero, and counting that far does not wrap around. */
  predicate TripOk(l: CountedLoop, step: nat) {
    step > 0 && l.start <= l.limit && DivCeil(l.limit - l.start, step) > 0
      && l.start + DivCeil(l.limit - l.start, step) * step < WORD
  }

  // ----- the plan -----

  datatype CountedPlan = CountedPlan(initializer_count: seq<Option<nat>>, suppress_instr: seq<bool>,
      latch: seq<Option<(nat, nat)>>)

  /** The arrays say what to emit for exactly the loops `loops`. */
  ghost predicate PlanRight(p: RuntimeProgram, loops: set<CountedLoop>, plan: CountedPlan) {
    && |plan.initializer_count| == |plan.suppress_instr| == |plan.latch| == |p.instrs|
    && (forall l :: l in loops ==> IsCountedLoop(p, l))
    && (forall i: nat :: i < |p.instrs| ==> CountRight(p, loops, i, plan.initializer_count[i]))
    && (forall i: nat :: i < |p.instrs| ==> (plan.suppress_instr[i] <==> exists l :: l in loops && Controls(p, l, i)))
    && (forall i: nat :: i < |p.instrs| ==> LatchRight(loops, i, plan.latch[i]))
  }

  ghost predicate CountRight(p: RuntimeProgram, loops: set<CountedLoop>, i: nat, count: Option<nat>) {
    && (count.Some? ==> exists l :: l in loops && StartsAt(p, l, i, count.value))
    && (count.None? ==> forall l :: l in loops ==> l.header != i + 1)
  }

  ghost predicate StartsAt(p: RuntimeProgram, l: CountedLoop, i: nat, count: nat) {
    IsCountedLoop(p, l) && l.header == i + 1 && count == Iterations(p, l)
  }

  ghost predicate LatchRight(loops: set<CountedLoop>, i: nat, latch: Option<(nat, nat)>) {
    && (latch.Some? ==> exists l :: l in loops && l.latch == i && latch.value == (l.induction, l.header))
    && (latch.None? ==> forall l :: l in loops ==> l.latch != i)
  }

  /** The initializer, guard and latch around a backward jump. */
  method MatchShape(p: RuntimeProgram, latch: nat) returns (r: Option<CountedLoop>)
    requires latch < |p.instrs|
    ensures r.Some? ==> r.value.latch == latch && HasShape(p, r.value)
    ensures r.None? ==> forall l: CountedLoop :: l.latch == latch ==> !HasShape(p, l)
    ensures r.Some? ==> forall l: CountedLoop :: l.latch == latch && HasShape(p, l) ==> l == r.value
  {
    var instr := p.instrs[latch];
    if !instr.Jump? {
      return None;
    }
    var header := instr.target;
    if header == 0 || header >= latch || latch + 1 >= |p.instrs| {
      return None;
    }
    var initializer, guard := p.instrs[header - 1], p.instrs[header];
    if !(initializer.Mov? && initializer.src.Imm?) {
      return None;
    }
    var x, start := initializer.dst, initializer.src.imm;
    if !(guard.JumpIfCmpFalse? && guard.cmp == LtUnsigned && guard.lhs == Slot(x) && guard.rhs.Imm?
      && guard.target == latch + 1 && start < guard.rhs.imm)
    {
      return None;
    }
    return Some(CountedLoop(header, latch, x, start, guard.rhs.imm));
  }

  /** The loop with this latch, if the plan takes it. */
  method FindCountedLoop(p: RuntimeProgram, latch: nat) returns (r: Option<CountedLoop>)
    requires latch < |p.instrs|
    ensures r.Some? ==> r.value.latch == latch && IsCountedLoop(p, r.value)
    ensures r.None? ==> forall l: CountedLoop :: l.latch == latch ==> !IsCountedLoop(p, l)
  {
    var found := MatchShape(p, latch);
    forall l: CountedLoop | l.latch == latch && IsCountedLoop(p, l)
      ensures HasShape(p, l)
    {}
    hide IsCountedLoop;
    hide HasShape;
    if found.None? {
      return None;
    }
    var ok := CheckLoop(p, found.value);
    r := if ok then found else None;
  }

  /** Everything the plan asks of a loop of the right shape. */
  method CheckLoop(p: RuntimeProgram, l: CountedLoop) returns (ok: bool)
    requires HasShape(p, l)
    ensures ok <==> IsCountedLoop(p, l)
  {
    assert l.start < l.limit && l.header < l.latch < |p.instrs|;
    hide HasShape;
    hide NoOtherEntry;
    hide OnlyControls;
    hide TripOk;
    if !NoOtherEntry(p, l) {
      return false;
    }
    var bodyOk, step := SumIncrements(p, l);
    hide BodyOk;
    hide StepSize;
    ok := bodyOk && OnlyControls(p, l) && TripOk(l, step);
  }

  method SumIncrements(p: RuntimeProgram, l: CountedLoop) returns (ok: bool, step: nat)
    requires l.header < l.latch < |p.instrs|
    ensures ok <==> BodyOk(p, l, l.latch) && StepSize(p, l) < WORD
    ensures ok ==> step == StepSize(p, l)
  {
    hide ReadsSlot;
    hide WriteSlots;
    hide TouchesSlot;
    hide IsControl;
    ok, step := true, 0;
    for i := l.header + 1 to l.latch
      invariant ok && BodyOk(p, l, i) && step == Increase(p, l.induction, l.header + 1, i) < WORD
    {
      if IsIncrement(p, l.induction, i) {
        if step + p.instrs[i].rhs.imm >= WORD {
          IncreaseGrows(p, l.induction, l.header + 1, i + 1, l.latch);
          return false, 0;
        }
        step := step + p.instrs[i].rhs.imm;
      } else if !InBody(p, l.induction, i) {
        return false, 0;
      }
    }
  }

  lemma {:induction false} IncreaseGrows(p: RuntimeProgram, x: nat, from: nat, i: nat, to: nat)
    requires i <= to
    ensures Increase(p, x, from, i) <= Increase(p, x, from, to)
  {
    if i < to {
      IncreaseGrows(p, x, from, i, to - 1);
    }
  }

  /** The loops whose latch comes before `n`. */
  ghost predicate LoopsBelow(p: RuntimeProgram, loops: set<CountedLoop>, n: nat) {
    forall l: CountedLoop :: l in loops <==> l.latch < n && IsCountedLoop(p, l)
  }

  method CountedLoopEmissionPlan(p: RuntimeProgram) returns (plan: CountedPlan, loops: set<CountedLoop>)
    ensures PlanRight(p, loops, plan)
    ensures forall l: CountedLoop :: l in loops <==> IsCountedLoop(p, l)
  {
    var len := |p.instrs|;
    plan := CountedPlan(seq(len, _ => None), seq(len, _ => false), seq(len, _ => None));
    loops := {};
    EmptyPlan(p, plan);
    for latch := 0 to len
      invariant PlanRight(p, loops, plan) && LoopsBelow(p, loops, latch)
    {
      var found := FindCountedLoop(p, latch);
      if found.Some? {
        plan := PlanLoop(p, plan, loops, found.value);
        NextLatch(p, loops, latch, found.value);
        loops := loops + {found.value};
      } else {
        NoLatch(p, loops, latch);
      }
    }
    AllLatches(p, loops);
  }

  lemma EmptyPlan(p: RuntimeProgram, plan: CountedPlan)
    requires |plan.initializer_count| == |plan.suppress_instr| == |plan.latch| == |p.instrs|
    requires forall i :: 0 <= i < |p.instrs| ==>
      plan.initializer_count[i].None? && !plan.suppress_instr[i] && plan.latch[i].None?
    ensures PlanRight(p, {}, plan) && LoopsBelow(p, {}, 0)
  {
    hide IsCountedLoop;
  }

  lemma NoLatch(p: RuntimeProgram, loops: set<CountedLoop>, n: nat)
    requires LoopsBelow(p, loops, n) && forall l: CountedLoop :: l.latch == n ==> !IsCountedLoop(p, l)
    ensures LoopsBelow(p, loops, n + 1)
  {
    hide IsCountedLoop;
  }

  lemma NextLatch(p: RuntimeProgram, loops: set<CountedLoop>, n: nat, found: CountedLoop)
    requires LoopsBelow(p, loops, n) && found.latch == n && IsCountedLoop(p, found)
    ensures LoopsBelow(p, loops + {found}, n + 1)
  {
    forall l: CountedLoop | l.latch == n && IsCountedLoop(p, l)
      ensures l == found
    {
      SameLatch(p, l, found);
    }
    hide IsCountedLoop;
  }

  lemma AllLatches(p: RuntimeProgram, loops: set<CountedLoop>)
    requires LoopsBelow(p, loops, |p.instrs|)
    ensures forall l: CountedLoop :: l in loops <==> IsCountedLoop(p, l)
  {
    forall l: CountedLoop | IsCountedLoop(p, l)
      ensures l.latch < |p.instrs|
    {}
    hide IsCountedLoop;
  }

  lemma SameLatch(p: RuntimeProgram, l: CountedLoop, k: CountedLoop)
    requires IsCountedLoop(p, l) && IsCountedLoop(p, k) && l.latch == k.latch
    ensures l == k
  {
    hide NoOtherEntry;
    hide BodyOk;
    hide OnlyControls;
    hide Iterations;
    hide StepSize;
  }

  lemma SameHeader(p: RuntimeProgram, l: CountedLoop, k: CountedLoop)
    requires IsCountedLoop(p, l) && IsCountedLoop(p, k) && l.header == k.header
    ensures l == k
  {
    hide BodyOk;
    hide OnlyControls;
    hide Iterations;
    hide StepSize;
    assert TargetOf(p.instrs[k.latch]) == Some(l.header);
  }

  /** Mark the instructions of one more loop. */
  method PlanLoop(p: RuntimeProgram, before: CountedPlan, ghost loops: set<CountedLoop>, l: CountedLoop)
      returns (plan: CountedPlan)
    requires PlanRight(p, loops, before) && IsCountedLoop(p, l)
    ensures PlanRight(p, loops + {l}, plan)
  {
    assert l.header > 0 && l.latch < |p.instrs| && StepSize(p, l) > 0 && l.start <= l.limit && l.header < l.latch;
    var suppress := SuppressControls(p, before.suppress_instr, l);
    plan := CountedPlan(before.initializer_count[l.header - 1 := Some(Iterations(p, l))], suppress,
      before.latch[l.latch := Some((l.induction, l.header))]);
    PlannedRight(p, before, loops, l, plan);
  }

  method SuppressControls(p: RuntimeProgram, before: seq<bool>, l: CountedLoop) returns (suppress: seq<bool>)
    requires |before| == |p.instrs| && l.header < l.latch < |p.instrs|
    ensures |suppress| == |before| && forall i: nat :: i < |p.instrs| ==>
      (suppress[i] <==> before[i] || Controls(p, l, i))
  {
    suppress := before[l.header := true];
    for i := l.header + 1 to l.latch
      invariant |suppress| == |before|
      invariant forall k: nat :: k < |p.instrs| ==> (suppress[k] <==> before[k] || (Controls(p, l, k) && k < i))
    {
      if IsIncrement(p, l.induction, i) {
        suppress := suppress[i := true];
      }
    }
  }

  lemma PlannedRight(p: RuntimeProgram, before: CountedPlan, loops: set<CountedLoop>, l: CountedLoop, plan: CountedPlan)
    requires PlanRight(p, loops, before) && IsCountedLoop(p, l)
    requires l.header > 0 && l.header <= |p.instrs| && l.latch < |p.instrs| && StepSize(p, l) > 0 && l.start <= l.limit
    requires plan.initializer_count == before.initializer_count[l.header - 1 := Some(Iterations(p, l))]
    requires plan.latch == before.latch[l.latch := Some((l.induction, l.header))]
    requires |plan.suppress_instr| == |p.instrs|
    requires forall i: nat :: i < |p.instrs| ==>
      (plan.suppress_instr[i] <==> before.suppress_instr[i] || Controls(p, l, i))
    ensures PlanRight(p, loops + {l}, plan)
  {
    hide IsCountedLoop;
    hide Iterations;
    hide StepSize;
    hide Controls;
    var loops' := loops + {l};
    assert l in loops';
    forall i: nat | i < |p.instrs|
      ensures CountRight(p, loops', i, plan.initializer_count[i])
      ensures LatchRight(loops', i, plan.latch[i])
      ensures plan.suppress_instr[i] <==> exists k :: k in loops' && Controls(p, k, i)
    {
      assert CountRight(p, loops, i, before.initializer_count[i]);
      assert LatchRight(loops, i, before.latch[i]);
      if i == l.header - 1 {
        assert StartsAt(p, l, i, Iterations(p, l));
      }
    }
  }
}
