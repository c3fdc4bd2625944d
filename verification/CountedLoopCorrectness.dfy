/** Counting down runs every loop of the plan exactly as often as its guard would have let it. */
module CountedLoopCorrectness {
  import opened Words
  import opened Ir
  import opened Semantics
  import opened Execution
  import opened Blocks
  import opened Fusion
  import opened FusionRuns
  import opened CountedLoops

  // ----- the emitted machine -----

  /** What the emitted code does: initializers load the count, guards and increments are gone, and a latch
      counts down and jumps back while the count is not zero. */
  ghost function CountedStep(w: World, p: RuntimeProgram, plan: CountedPlan, s: State): State
    requires |plan.initializer_count| == |plan.suppress_instr| == |plan.latch| == |p.instrs|
  {
    if s.status != Running || s.pc >= |p.instrs| then Step(w, p, s)
    else if plan.initializer_count[s.pc].Some? && p.instrs[s.pc].Mov? then
      s.(pc := s.pc + 1, frame := s.frame[p.instrs[s.pc].dst := plan.initializer_count[s.pc].value % WORD])
    else if plan.suppress_instr[s.pc] then s.(pc := s.pc + 1)
    else if plan.latch[s.pc].Some? then
      var (counter, header) := plan.latch[s.pc].value;
      var count: u64 := (Get(s.frame, counter) - 1) % WORD;
      s.(pc := if count != 0 then header else s.pc + 1, frame := s.frame[counter := count])
    else Step(w, p, s)
  }

  ghost function CountedRun(w: World, p: RuntimeProgram, plan: CountedPlan, f: Frame, n: nat): State
    requires |plan.initializer_count| == |plan.suppress_instr| == |plan.latch| == |p.instrs|
  {
    if n == 0 then Start(f) else CountedStep(w, p, plan, CountedRun(w, p, plan, f, n - 1))
  }

  // ----- arithmetic of the count -----

  /** The guarded loop has added the step `Iterations - count` times and part of the next one. */
  ghost predicate Counts(p: RuntimeProgram, l: CountedLoop, pc: nat, value: u64, count: u64)
    requires IsCountedLoop(p, l)
  {
    && 1 <= count <= Iterations(p, l)
    && value == l.start + (Iterations(p, l) - count) * StepSize(p, l) + Increase(p, l.induction, l.header + 1, pc)
  }

  lemma RoundUp(d: nat, k: nat)
    requires k > 0
    ensures var n := DivCeil(d, k); d <= n * k && (n > 0 ==> (n - 1) * k < d)
  {
    DivDivide(d, k);
    assert (d / k + 1) * k == (d / k) * k + k;
    assert d / k > 0 ==> (d / k - 1) * k == (d / k) * k - k;
  }

  /** While something is left to count, the guard would let the loop go on. */
  lemma GuardHolds(p: RuntimeProgram, l: CountedLoop, value: u64, count: u64)
    requires IsCountedLoop(p, l) && Counts(p, l, l.header, value, count)
    ensures value < l.limit
  {
    hide HasShape;
    hide BodyOk;
    hide NoOtherEntry;
    hide OnlyControls;
    var n, k := Iterations(p, l), StepSize(p, l);
    RoundUp(l.limit - l.start, k);
    MulMono(n - count, n - 1, k);
  }

  lemma LoopBounds(p: RuntimeProgram, l: CountedLoop)
    requires IsCountedLoop(p, l)
    ensures HasShape(p, l) && 0 < StepSize(p, l) && l.start + Iterations(p, l) * StepSize(p, l) < WORD
    ensures Iterations(p, l) > 0 && l.start < l.limit && 0 < l.header < l.latch < |p.instrs|
  {
    hide DivCeil;
    hide StepSize;
    hide BodyOk;
    hide NoOtherEntry;
    hide OnlyControls;
  }

  /** When the count runs out, the guard would stop the loop. */
  lemma GuardFails(p: RuntimeProgram, l: CountedLoop)
    requires IsCountedLoop(p, l)
    ensures l.start + Iterations(p, l) * StepSize(p, l) >= l.limit
  {
    hide IsCountedLoop;
    hide StepSize;
    hide HasShape;
    LoopBounds(p, l);
    RoundUp(l.limit - l.start, StepSize(p, l));
  }

  lemma RoomToAdd(start: nat, n: nat, count: nat, k: nat, part: nat)
    requires 1 <= count <= n && part <= k && start + n * k < WORD
    ensures start + (n - count) * k + part < WORD
    ensures (n - count) * k + k == (n - count + 1) * k
  {
    assert (n - count + 1) * k == (n - count) * k + k;
    MulMono(n - count + 1, n, k);
  }

  /** The induction slot never wraps around. */
  lemma NoWrap(p: RuntimeProgram, l: CountedLoop, pc: nat, count: u64)
    requires IsCountedLoop(p, l) && 1 <= count <= Iterations(p, l) && pc <= l.latch
    ensures l.start + (Iterations(p, l) - count) * StepSize(p, l) + Increase(p, l.induction, l.header + 1, pc) < WORD
    ensures (Iterations(p, l) - count) * StepSize(p, l) + StepSize(p, l)
      == (Iterations(p, l) - count + 1) * StepSize(p, l)
  {
    hide IsCountedLoop;
    hide HasShape;
    hide Iterations;
    LoopBounds(p, l);
    IncreaseGrows(p, l.induction, l.header + 1, pc, l.latch);
    var part, k := Increase(p, l.induction, l.header + 1, pc), StepSize(p, l);
    assert part <= k;
    hide StepSize;
    hide Increase;
    RoomToAdd(l.start, Iterations(p, l), count, k, part);
  }

  // ----- how control enters and leaves a loop -----

  /** Nothing outside the loop jumps past its header into it. */
  ghost predicate SideEntryFree(p: RuntimeProgram, l: CountedLoop) {
    forall i, j: nat :: 0 <= i < |p.instrs| && TargetOf(p.instrs[i]) == Some(j) && l.header < j <= l.latch ==>
      InLoop(l, i)
  }

  ghost predicate LoopsOk(p: RuntimeProgram, loops: set<CountedLoop>) {
    forall l :: l in loops ==> IsCountedLoop(p, l) && SideEntryFree(p, l)
  }

  lemma BodyInstr(p: RuntimeProgram, l: CountedLoop, i: nat)
    requires IsCountedLoop(p, l) && l.header < i < l.latch
    ensures i < |p.instrs| && InBody(p, l.induction, i)
    ensures forall j :: StaticNext(p, i, j) ==> j == i + 1
  {
    hide TouchesSlot;
    hide NoOtherEntry;
    hide OnlyControls;
    assert InBody(p, l.induction, i);
  }

  /** A loop is entered only at its header, from the initializer before it or from its latch. */
  lemma IntoLoop(p: RuntimeProgram, l: CountedLoop, i: nat, j: nat)
    requires IsCountedLoop(p, l) && SideEntryFree(p, l) && i < |p.instrs| && StaticNext(p, i, j) && InLoop(l, j)
    ensures (j == i + 1 && (i == l.header - 1 || l.header <= i < l.latch)) || (i == l.latch && j == l.header)
  {
    hide BodyOk;
    hide OnlyControls;
    if l.header < i < l.latch {
      BodyInstr(p, l, i);
    } else if TargetOf(p.instrs[i]) == Some(j) {
      assert InLoop(l, i) || j == l.header;
    } else if IsContinuation(p, j, |p.instrs|) && l.header < j - 1 < l.latch {
      BodyInstr(p, l, j - 1);
    }
  }

  /** Two loops of the plan have no instruction in common, */
  lemma LoopsApart(p: RuntimeProgram, l: CountedLoop, k: CountedLoop, i: nat)
    requires IsCountedLoop(p, l) && IsCountedLoop(p, k) && InLoop(l, i) && InLoop(k, i)
    ensures l == k
  {
    if l.header < k.header {
      HeaderNotInside(p, l, k);
    } else if k.header < l.header {
      HeaderNotInside(p, k, l);
    } else {
      SameHeader(p, l, k);
    }
  }

  lemma HeaderNotInside(p: RuntimeProgram, l: CountedLoop, k: CountedLoop)
    requires IsCountedLoop(p, l) && IsCountedLoop(p, k)
    ensures !(l.header < k.header <= l.latch)
  {
    NoGuardInBody(p, l, k.header);
    hide OnlyControls;
    hide NoOtherEntry;
    hide BodyOk;
  }

  lemma NoGuardInBody(p: RuntimeProgram, l: CountedLoop, i: nat)
    requires IsCountedLoop(p, l)
    ensures l.header < i < l.latch ==> i < |p.instrs| && !p.instrs[i].JumpIfCmpFalse?
  {
    hide OnlyControls;
    hide NoOtherEntry;
    hide TouchesSlot;
    assert l.header < i < l.latch ==> InBody(p, l.induction, i);
  }

  /** and the initializer of one lies outside the other. */
  lemma InitializerOutside(p: RuntimeProgram, l: CountedLoop, k: CountedLoop)
    requires IsCountedLoop(p, l) && IsCountedLoop(p, k)
    ensures !InLoop(k, l.header - 1)
  {
    hide IsCountedLoop;
    HeaderNotInside(p, k, l);
    LoopBounds(p, l);
    LoopBounds(p, k);
  }

  // ----- the simulation -----

  ghost predicate Inductive(loops: set<CountedLoop>, x: nat) {
    exists l :: l in loops && l.induction == x
  }

  /** The same point of the run; only induction slots differ, and inside its loop each counts down what
      the original counts up. */
  ghost predicate Related(p: RuntimeProgram, loops: set<CountedLoop>, s: State, t: State)
    requires LoopsOk(p, loops)
  {
    && t == s.(frame := t.frame)
    && (forall x :: !Inductive(loops, x) ==> Get(t.frame, x) == Get(s.frame, x))
    && (s.status == Running ==> CountsHere(p, loops, s.pc, s.frame, t.frame))
  }

  ghost predicate CountsHere(p: RuntimeProgram, loops: set<CountedLoop>, pc: nat, f: Frame, h: Frame)
    requires LoopsOk(p, loops)
  {
    forall l :: l in loops && InLoop(l, pc) ==> CountsIn(p, l, pc, f, h)
  }

  ghost predicate CountsIn(p: RuntimeProgram, l: CountedLoop, pc: nat, f: Frame, h: Frame)
    requires IsCountedLoop(p, l)
  {
    Counts(p, l, pc, Get(f, l.induction), Get(h, l.induction))
  }

  /** Only the loop at hand matters. */
  lemma OneLoop(p: RuntimeProgram, loops: set<CountedLoop>, l: CountedLoop, pc: nat, f: Frame, h: Frame)
    requires LoopsOk(p, loops) && l in loops && InLoop(l, pc) && CountsIn(p, l, pc, f, h)
    ensures CountsHere(p, loops, pc, f, h)
  {
    hide CountsIn;
    forall k | k in loops && InLoop(k, pc)
      ensures CountsIn(p, k, pc, f, h)
    {
      LoopsApart(p, l, k, pc);
    }
  }

  /** What the plan says about an instruction, loop by loop. */
  lemma AtInitializer(p: RuntimeProgram, loops: set<CountedLoop>, plan: CountedPlan, l: CountedLoop)
    requires PlanRight(p, loops, plan) && l in loops
    ensures 0 < l.header <= |p.instrs| && plan.initializer_count[l.header - 1] == Some(Iterations(p, l))
  {
    assert IsCountedLoop(p, l);
    assert CountRight(p, loops, l.header - 1, plan.initializer_count[l.header - 1]);
    var count := plan.initializer_count[l.header - 1];
    if count.Some? {
      var k :| k in loops && StartsAt(p, k, l.header - 1, count.value);
      SameHeader(p, l, k);
    }
  }

  lemma AtControl(p: RuntimeProgram, loops: set<CountedLoop>, plan: CountedPlan, l: CountedLoop, i: nat)
    requires PlanRight(p, loops, plan) && l in loops && InLoop(l, i)
    ensures i < |p.instrs| && plan.initializer_count[i].None?
    ensures plan.suppress_instr[i] <==> Controls(p, l, i)
    ensures plan.latch[i] == if i == l.latch then Some((l.induction, l.header)) else None
  {
    LoopBounds(p, l);
    hide IsCountedLoop;
    hide HasShape;
    hide Controls;
    forall k | k in loops
      ensures k.header != i + 1 && (InLoop(k, i) ==> k == l) && (Controls(p, k, i) ==> InLoop(k, i))
        && InLoop(k, k.latch)
    {
      OnlyThisLoop(p, l, k, i);
    }
    NoInitializer(p, loops, plan, i);
    OneLatch(p, loops, plan, l, i);
    assert l in loops;
  }

  lemma OnlyThisLoop(p: RuntimeProgram, l: CountedLoop, k: CountedLoop, i: nat)
    requires IsCountedLoop(p, l) && IsCountedLoop(p, k) && InLoop(l, i)
    ensures k.header != i + 1 && (InLoop(k, i) ==> k == l) && (Controls(p, k, i) ==> InLoop(k, i)) && InLoop(k, k.latch)
  {
    hide IsCountedLoop;
    LoopBounds(p, k);
    InitializerOutside(p, k, l);
    hide IsIncrement;
    if InLoop(k, i) {
      LoopsApart(p, l, k, i);
    }
  }

  lemma NoInitializer(p: RuntimeProgram, loops: set<CountedLoop>, plan: CountedPlan, i: nat)
    requires PlanRight(p, loops, plan) && i < |p.instrs| && forall k :: k in loops ==> k.header != i + 1
    ensures plan.initializer_count[i].None?
  {
    hide IsCountedLoop;
    assert CountRight(p, loops, i, plan.initializer_count[i]);
  }

  lemma OneLatch(p: RuntimeProgram, loops: set<CountedLoop>, plan: CountedPlan, l: CountedLoop, i: nat)
    requires PlanRight(p, loops, plan) && i < |p.instrs| && l in loops
    requires forall k :: k in loops && k.latch == i ==> k == l
    ensures plan.latch[i] == if i == l.latch then Some((l.induction, l.header)) else None
  {
    hide IsCountedLoop;
    hide Controls;
    assert LatchRight(loops, i, plan.latch[i]);
  }

  // ----- one step of each kind -----

  ghost predicate Ready(p: RuntimeProgram, loops: set<CountedLoop>, plan: CountedPlan, s: State, t: State) {
    && PlanRight(p, loops, plan) && LoopsOk(p, loops) && Related(p, loops, s, t)
    && s.status == Running && s.pc < |p.instrs|
  }

  /** Going on to instruction `j` of loop `l`, after touching nothing but its induction slot. */
  lemma MoveOn(p: RuntimeProgram, loops: set<CountedLoop>, l: CountedLoop, s: State, t: State, j: nat, f: Frame,
      h: Frame)
    requires LoopsOk(p, loops) && Related(p, loops, s, t) && l in loops && InLoop(l, j) && CountsIn(p, l, j, f, h)
    requires forall x :: x != l.induction ==> Get(f, x) == Get(s.frame, x) && Get(h, x) == Get(t.frame, x)
    ensures Related(p, loops, s.(pc := j, frame := f), t.(pc := j, frame := h))
  {
    hide IsCountedLoop;
    hide CountsIn;
    OneLoop(p, loops, l, j, f, h);
    hide CountsHere;
    hide LoopsOk;
    assert Inductive(loops, l.induction);
  }

  lemma EmitInitializer(w: World, p: RuntimeProgram, plan: CountedPlan, l: CountedLoop, s: State, n: u64)
    requires HasShape(p, l) && |plan.initializer_count| == |plan.suppress_instr| == |plan.latch| == |p.instrs|
    requires s.status == Running && s.pc == l.header - 1 && plan.initializer_count[s.pc] == Some(n)
    ensures Step(w, p, s) == s.(pc := l.header, frame := s.frame[l.induction := l.start])
    ensures CountedStep(w, p, plan, s) == s.(pc := l.header, frame := s.frame[l.induction := n])
  {}

  lemma StepInitializer(w: World, p: RuntimeProgram, loops: set<CountedLoop>, plan: CountedPlan, l: CountedLoop,
      s: State, t: State)
    requires Ready(p, loops, plan, s, t) && l in loops && s.pc == l.header - 1
    ensures Related(p, loops, Step(w, p, s), CountedStep(w, p, plan, t))
  {
    hide Step;
    hide CountedStep;
    hide IsCountedLoop;
    hide CountsHere;
    AtInitializer(p, loops, plan, l);
    LoopBounds(p, l);
    var n := Iterations(p, l);
    CountFits(p, l);
    EmitInitializer(w, p, plan, l, s, n);
    EmitInitializer(w, p, plan, l, t, n);
    hide PlanRight;
    hide HasShape;
    FirstCount(p, l, s.frame[l.induction := l.start], t.frame[l.induction := n]);
    hide CountsIn;
    MoveOn(p, loops, l, s, t, l.header, s.frame[l.induction := l.start], t.frame[l.induction := n]);
  }

  lemma CountFits(p: RuntimeProgram, l: CountedLoop)
    requires IsCountedLoop(p, l)
    ensures 0 < Iterations(p, l) < WORD
  {
    LoopBounds(p, l);
    var n, k := Iterations(p, l), StepSize(p, l);
    hide IsCountedLoop;
    hide Iterations;
    hide StepSize;
    hide HasShape;
    MulMono(1, k, n);
  }

  lemma FirstCount(p: RuntimeProgram, l: CountedLoop, f: Frame, h: Frame)
    requires IsCountedLoop(p, l) && Get(f, l.induction) == l.start && Get(h, l.induction) == Iterations(p, l)
    ensures CountsIn(p, l, l.header, f, h)
  {
    CountFits(p, l);
    hide IsCountedLoop;
    hide Iterations;
    hide StepSize;
    assert 0 * StepSize(p, l) == 0;
  }

  lemma EmitGuard(w: World, p: RuntimeProgram, plan: CountedPlan, l: CountedLoop, s: State)
    requires HasShape(p, l) && |plan.initializer_count| == |plan.suppress_instr| == |plan.latch| == |p.instrs|
    requires s.status == Running && s.pc == l.header && plan.initializer_count[s.pc].None? && plan.suppress_instr[s.pc]
    ensures Get(s.frame, l.induction) < l.limit ==> Step(w, p, s) == s.(pc := s.pc + 1)
    ensures Get(s.frame, l.induction) >= l.limit ==> Step(w, p, s) == s.(pc := l.latch + 1)
    ensures CountedStep(w, p, plan, s) == s.(pc := s.pc + 1)
  {}

  lemma StepGuard(w: World, p: RuntimeProgram, loops: set<CountedLoop>, plan: CountedPlan, l: CountedLoop, s: State,
      t: State)
    requires Ready(p, loops, plan, s, t) && l in loops && s.pc == l.header
    ensures Related(p, loops, Step(w, p, s), CountedStep(w, p, plan, t))
  {
    hide Step;
    hide CountedStep;
    hide IsCountedLoop;
    hide Iterations;
    hide StepSize;
    LoopBounds(p, l);
    AtControl(p, loops, plan, l, s.pc);
    assert CountsIn(p, l, s.pc, s.frame, t.frame);
    GuardHolds(p, l, Get(s.frame, l.induction), Get(t.frame, l.induction));
    EmitGuard(w, p, plan, l, s);
    EmitGuard(w, p, plan, l, t);
    hide PlanRight;
    hide HasShape;
    assert CountsIn(p, l, s.pc + 1, s.frame, t.frame);
    hide CountsIn;
    MoveOn(p, loops, l, s, t, s.pc + 1, s.frame, t.frame);
  }

  lemma EmitIncrement(w: World, p: RuntimeProgram, plan: CountedPlan, l: CountedLoop, s: State)
    requires |plan.initializer_count| == |plan.suppress_instr| == |plan.latch| == |p.instrs|
      && IsIncrement(p, l.induction, s.pc)
    requires s.status == Running && plan.initializer_count[s.pc].None? && plan.suppress_instr[s.pc]
    ensures Step(w, p, s)
      == s.(pc := s.pc + 1,
      frame := s.frame[l.induction := (Get(s.frame, l.induction) + p.instrs[s.pc].rhs.imm) % WORD])
    ensures CountedStep(w, p, plan, s) == s.(pc := s.pc + 1)
  {}

  lemma IncrementCounts(p: RuntimeProgram, l: CountedLoop, i: nat, f: Frame, h: Frame)
    requires IsCountedLoop(p, l) && l.header < i < l.latch && IsIncrement(p, l.induction, i) && CountsIn(p, l, i, f, h)
    ensures Get(f, l.induction) + p.instrs[i].rhs.imm < WORD
    ensures CountsIn(p, l, i + 1, f[l.induction := Get(f, l.induction) + p.instrs[i].rhs.imm], h)
  {
    hide IsCountedLoop;
    hide Iterations;
    hide StepSize;
    NoWrap(p, l, i + 1, Get(h, l.induction));
    assert Increase(p, l.induction, l.header + 1, i + 1)
      == Increase(p, l.induction, l.header + 1, i) + p.instrs[i].rhs.imm;
    hide IsIncrement;
  }

  lemma ControlsIncrement(p: RuntimeProgram, l: CountedLoop, i: nat)
    requires l.header < i < l.latch && IsIncrement(p, l.induction, i)
    ensures Controls(p, l, i) && i < |p.instrs| && p.instrs[i].BinOpInPlace? && p.instrs[i].rhs.Imm?
  {}

  lemma StepIncrement(w: World, p: RuntimeProgram, loops: set<CountedLoop>, plan: CountedPlan, l: CountedLoop, s: State,
      t: State)
    requires Ready(p, loops, plan, s, t) && l in loops && l.header < s.pc < l.latch && IsIncrement(p, l.induction, s.pc)
    ensures Related(p, loops, Step(w, p, s), CountedStep(w, p, plan, t))
  {
    hide Step;
    hide CountedStep;
    hide IsCountedLoop;
    hide CountsIn;
    hide IsIncrement;
    AtControl(p, loops, plan, l, s.pc);
    assert CountsIn(p, l, s.pc, s.frame, t.frame);
    IncrementCounts(p, l, s.pc, s.frame, t.frame);
    ControlsIncrement(p, l, s.pc);
    hide Controls;
    EmitIncrement(w, p, plan, l, s);
    EmitIncrement(w, p, plan, l, t);
    hide PlanRight;
    MoveOn(p, loops, l, s, t, s.pc + 1, s.frame[l.induction := Get(s.frame, l.induction) + p.instrs[s.pc].rhs.imm],
      t.frame);
  }

  lemma EmitLatch(w: World, p: RuntimeProgram, plan: CountedPlan, l: CountedLoop, s: State)
    requires HasShape(p, l) && |plan.initializer_count| == |plan.suppress_instr| == |plan.latch| == |p.instrs|
    requires s.status == Running && s.pc == l.latch
    requires plan.initializer_count[s.pc].None? && !plan.suppress_instr[s.pc]
      && plan.latch[s.pc] == Some((l.induction, l.header))
    ensures Step(w, p, s) == s.(pc := l.header)
    ensures Get(s.frame, l.induction) > 1 ==>
      CountedStep(w, p, plan, s) == s.(pc := l.header, frame := s.frame[l.induction := Get(s.frame, l.induction) - 1])
    ensures Get(s.frame, l.induction) == 1 ==>
      CountedStep(w, p, plan, s) == s.(pc := l.latch + 1, frame := s.frame[l.induction := 0])
  {}

  lemma LatchCounts(p: RuntimeProgram, l: CountedLoop, f: Frame, h: Frame)
    requires IsCountedLoop(p, l) && CountsIn(p, l, l.latch, f, h)
    ensures Get(h, l.induction) > 1 ==> CountsIn(p, l, l.header, f, h[l.induction := Get(h, l.induction) - 1])
    ensures Get(h, l.induction) >= 1 && (Get(h, l.induction) == 1 ==> Get(f, l.induction) >= l.limit)
  {
    hide IsCountedLoop;
    hide Iterations;
    hide StepSize;
    hide HasShape;
    LoopBounds(p, l);
    NoWrap(p, l, l.latch, Get(h, l.induction));
    GuardFails(p, l);
    FullStep(p, l);
    FreshPass(p, l);
    hide Increase;
  }

  lemma FullStep(p: RuntimeProgram, l: CountedLoop)
    ensures Increase(p, l.induction, l.header + 1, l.latch) == StepSize(p, l)
  {}

  lemma FreshPass(p: RuntimeProgram, l: CountedLoop)
    ensures Increase(p, l.induction, l.header + 1, l.header) == 0
  {}

  /** At the latch the emitted code either goes on like the original, or leaves at once where the original
      goes back to its guard first. */
  lemma StepLatch(w: World, p: RuntimeProgram, loops: set<CountedLoop>, plan: CountedPlan, l: CountedLoop, s: State,
      t: State)
    requires Ready(p, loops, plan, s, t) && l in loops && s.pc == l.latch
    ensures Obs(Step(w, p, s)) == Obs(s)
    ensures
      var t' := CountedStep(w, p, plan, t);
      Related(p, loops, Step(w, p, s), t') || Related(p, loops, Step(w, p, Step(w, p, s)), t')
  {
    hide Step;
    hide CountedStep;
    hide IsCountedLoop;
    hide Iterations;
    hide StepSize;
    LoopBounds(p, l);
    AtControl(p, loops, plan, l, s.pc);
    assert CountsIn(p, l, s.pc, s.frame, t.frame);
    LatchCounts(p, l, s.frame, t.frame);
    EmitLatch(w, p, plan, l, s);
    EmitLatch(w, p, plan, l, t);
    var c := Get(t.frame, l.induction);
    if c > 1 {
      hide PlanRight;
      hide HasShape;
      hide CountsIn;
      MoveOn(p, loops, l, s, t, l.header, s.frame, t.frame[l.induction := c - 1]);
    } else {
      var back := s.(pc := l.header);
      AtControl(p, loops, plan, l, l.header);
      EmitGuard(w, p, plan, l, back);
      hide PlanRight;
      hide HasShape;
      hide CountsIn;
      Leave(p, loops, l, s, t, t.frame[l.induction := 0]);
    }
  }

  /** Nothing is counted just after a loop. */
  lemma Leave(p: RuntimeProgram, loops: set<CountedLoop>, l: CountedLoop, s: State, t: State, h: Frame)
    requires LoopsOk(p, loops) && Related(p, loops, s, t) && l in loops
    requires forall x :: x != l.induction ==> Get(h, x) == Get(t.frame, x)
    ensures Related(p, loops, s.(pc := l.latch + 1), t.(pc := l.latch + 1, frame := h))
  {
    hide IsCountedLoop;
    hide SideEntryFree;
    hide CountsIn;
    forall k | k in loops
      ensures !InLoop(k, l.latch + 1)
    {
      AfterLatch(p, l, k);
    }
    hide LoopsOk;
    assert Inductive(loops, l.induction);
  }

  lemma AfterLatch(p: RuntimeProgram, l: CountedLoop, k: CountedLoop)
    requires IsCountedLoop(p, l) && IsCountedLoop(p, k) && SideEntryFree(p, k)
    ensures !InLoop(k, l.latch + 1)
  {
    LoopBounds(p, l);
    assert StaticNext(p, l.header, l.latch + 1);
    if InLoop(k, l.latch + 1) {
      IntoLoop(p, k, l.header, l.latch + 1);
      if InLoop(k, l.header) {
        LoopsApart(p, l, k, l.header);
      }
    }
  }

  // ----- all other instructions -----

  /** The plan has nothing to say about instruction `i`. */
  ghost predicate IsOrdinary(p: RuntimeProgram, loops: set<CountedLoop>, i: nat) {
    forall l :: l in loops ==> i + 1 != l.header && i != l.latch && !Controls(p, l, i)
  }

  lemma EmitOrdinary(w: World, p: RuntimeProgram, loops: set<CountedLoop>, plan: CountedPlan, s: State)
    requires PlanRight(p, loops, plan) && s.status == Running && s.pc < |p.instrs| && IsOrdinary(p, loops, s.pc)
    ensures CountedStep(w, p, plan, s) == Step(w, p, s)
  {
    hide Step;
    hide IsCountedLoop;
    hide Controls;
    assert CountRight(p, loops, s.pc, plan.initializer_count[s.pc]) && LatchRight(loops, s.pc, plan.latch[s.pc]);
  }

  lemma OrdinaryReads(p: RuntimeProgram, loops: set<CountedLoop>, i: nat, f: Frame, h: Frame)
    requires LoopsOk(p, loops) && i < |p.instrs| && IsOrdinary(p, loops, i)
    requires forall x :: !Inductive(loops, x) ==> Get(h, x) == Get(f, x)
    ensures forall x :: ReadsSlot(p.instrs[i], x) ==> Get(h, x) == Get(f, x)
  {
    hide ReadsSlot;
    hide Controls;
    forall x | ReadsSlot(p.instrs[i], x)
      ensures !Inductive(loops, x)
    {
      forall l | l in loops
        ensures l.induction != x
      {
        QuietOn(p, l, i);
      }
    }
  }

  lemma QuietOn(p: RuntimeProgram, l: CountedLoop, i: nat)
    requires IsCountedLoop(p, l) && i < |p.instrs| && !Controls(p, l, i)
    ensures !ReadsSlot(p.instrs[i], l.induction)
  {
    hide ReadsSlot;
    hide BodyOk;
    hide NoOtherEntry;
    hide HasShape;
    hide Controls;
  }

  /** In the body of a loop, an ordinary instruction leaves the induction slot alone. */
  lemma BodyQuiet(p: RuntimeProgram, l: CountedLoop, i: nat)
    requires IsCountedLoop(p, l) && l.header < i < l.latch && !Controls(p, l, i)
    ensures i < |p.instrs| && l.induction !in WriteSlots(p.instrs[i])
    ensures Increase(p, l.induction, l.header + 1, i + 1) == Increase(p, l.induction, l.header + 1, i)
  {
    BodyInstr(p, l, i);
    hide IsCountedLoop;
    hide ReadsSlot;
  }

  lemma OrdinaryCountsIn(p: RuntimeProgram, l: CountedLoop, i: nat, j: nat, f: Frame, h: Frame, f': Frame, h': Frame)
    requires IsCountedLoop(p, l) && SideEntryFree(p, l) && i < |p.instrs| && StaticNext(p, i, j) && InLoop(l, j)
    requires i + 1 != l.header && i != l.latch && !Controls(p, l, i)
    requires InLoop(l, i) ==> CountsIn(p, l, i, f, h)
    requires forall x :: x !in WriteSlots(p.instrs[i]) ==> Get(h', x) == Get(h, x) && Get(f', x) == Get(f, x)
    ensures CountsIn(p, l, j, f', h')
  {
    hide IsCountedLoop;
    hide StaticNext;
    hide WriteSlots;
    hide Iterations;
    hide StepSize;
    hide SideEntryFree;
    hide Increase;
    IntoLoop(p, l, i, j);
    assert i != l.header;
    hide Controls;
    BodyQuiet(p, l, i);
    assert CountsIn(p, l, i, f, h);
  }

  lemma OrdinaryCounts(p: RuntimeProgram, loops: set<CountedLoop>, i: nat, j: nat, f: Frame, h: Frame, f': Frame,
      h': Frame)
    requires LoopsOk(p, loops) && i < |p.instrs| && IsOrdinary(p, loops, i) && StaticNext(p, i, j)
      && CountsHere(p, loops, i, f, h)
    requires forall x :: x !in WriteSlots(p.instrs[i]) ==> Get(h', x) == Get(h, x) && Get(f', x) == Get(f, x)
    ensures CountsHere(p, loops, j, f', h')
  {
    hide StaticNext;
    hide WriteSlots;
    hide IsCountedLoop;
    hide Controls;
    hide CountsIn;
    hide SideEntryFree;
    forall l | l in loops && InLoop(l, j)
      ensures CountsIn(p, l, j, f', h')
    {
      OrdinaryCountsIn(p, l, i, j, f, h, f', h');
    }
  }

  lemma StepOrdinary(w: World, p: RuntimeProgram, loops: set<CountedLoop>, plan: CountedPlan, s: State, t: State)
    requires Ready(p, loops, plan, s, t) && IsOrdinary(p, loops, s.pc) && StackOfCalls(p, s)
    ensures Related(p, loops, Step(w, p, s), CountedStep(w, p, plan, t))
  {
    EmitOrdinary(w, p, loops, plan, t);
    hide CountedStep;
    hide PlanRight;
    OrdinaryReads(p, loops, s.pc, s.frame, t.frame);
    StepFollows(w, p, s);
    hide StaticNext;
    hide IsCountedLoop;
    if IsControl(p.instrs[s.pc]) {
      OrdinaryControl(w, p, loops, s, t);
    } else {
      OrdinaryPlain(w, p, loops, s, t);
    }
  }

  lemma OrdinaryControl(w: World, p: RuntimeProgram, loops: set<CountedLoop>, s: State, t: State)
    requires LoopsOk(p, loops) && Related(p, loops, s, t) && s.status == Running && s.pc < |p.instrs|
    requires IsControl(p.instrs[s.pc]) && IsOrdinary(p, loops, s.pc) && StackOfCalls(p, s)
    requires forall x :: ReadsSlot(p.instrs[s.pc], x) ==> Get(t.frame, x) == Get(s.frame, x)
    ensures Related(p, loops, Step(w, p, s), Step(w, p, t))
  {
    hide CountsHere;
    hide LoopsOk;
    hide IsOrdinary;
    hide StaticNext;
    var i := p.instrs[s.pc];
    assert forall x :: x in ReadSlots(i) ==> ReadsSlot(i, x);
    hide ReadsSlot;
    ControlSame(w, p, s, t.frame);
    StepFollows(w, p, s);
    hide Step;
    hide ReadSlots;
    var s' := Step(w, p, s);
    if s'.status == Running {
      if s'.pc < |p.instrs| {
        OrdinaryCounts(p, loops, s.pc, s'.pc, s.frame, t.frame, s.frame, t.frame);
      } else {
        PastEnd(p, loops, s'.pc, s.frame, t.frame);
      }
    }
  }

  lemma PastEnd(p: RuntimeProgram, loops: set<CountedLoop>, pc: nat, f: Frame, h: Frame)
    requires LoopsOk(p, loops) && pc >= |p.instrs|
    ensures CountsHere(p, loops, pc, f, h)
  {
    forall l | l in loops
      ensures l.latch < pc
    {
      LoopBounds(p, l);
    }
    hide IsCountedLoop;
  }

  lemma OrdinaryPlain(w: World, p: RuntimeProgram, loops: set<CountedLoop>, s: State, t: State)
    requires LoopsOk(p, loops) && Related(p, loops, s, t) && s.status == Running && s.pc < |p.instrs|
    requires !IsControl(p.instrs[s.pc]) && IsOrdinary(p, loops, s.pc)
    requires forall x :: ReadsSlot(p.instrs[s.pc], x) ==> Get(t.frame, x) == Get(s.frame, x)
    ensures Related(p, loops, Step(w, p, s), Step(w, p, t))
  {
    hide CountsHere;
    hide LoopsOk;
    hide IsOrdinary;
    hide ReadsSlot;
    var i := p.instrs[s.pc];
    ExecReads(w, i, s.frame, t.frame, s.trace);
    StepPlain(w, p, s);
    StepPlain(w, p, t);
    hide Step;
    hide Exec;
    var e, d := Exec(w, i, s.frame, s.trace), Exec(w, i, t.frame, s.trace);
    if e.Next? {
      if s.pc + 1 < |p.instrs| {
        assert StaticNext(p, s.pc, s.pc + 1);
        OrdinaryCounts(p, loops, s.pc, s.pc + 1, s.frame, t.frame, e.frame, d.frame);
      } else {
        PastEnd(p, loops, s.pc + 1, e.frame, d.frame);
      }
    }
  }

  // ----- whole runs -----

  /** One step of the emitted code is one step of the original, or two that show nothing in between. */
  lemma StepCounted(w: World, p: RuntimeProgram, loops: set<CountedLoop>, plan: CountedPlan, s: State, t: State)
    requires PlanRight(p, loops, plan) && LoopsOk(p, loops) && Related(p, loops, s, t) && StackOfCalls(p, s)
    ensures
      var s', t' := Step(w, p, s), CountedStep(w, p, plan, t);
      Related(p, loops, s', t') || (Obs(s') == Obs(s) && Related(p, loops, Step(w, p, s'), t'))
  {
    if s.status == Running && s.pc < |p.instrs| {
      assert Ready(p, loops, plan, s, t);
      hide Ready;
      hide Step;
      hide CountedStep;
      hide PlanRight;
      hide Related;
      if IsOrdinary(p, loops, s.pc) {
        StepOrdinary(w, p, loops, plan, s, t);
      } else {
        var l :| l in loops && !(s.pc + 1 != l.header && s.pc != l.latch && !Controls(p, l, s.pc));
        if s.pc + 1 == l.header {
          StepInitializer(w, p, loops, plan, l, s, t);
        } else if s.pc == l.latch {
          StepLatch(w, p, loops, plan, l, s, t);
        } else if s.pc == l.header {
          StepGuard(w, p, loops, plan, l, s, t);
        } else {
          StepIncrement(w, p, loops, plan, l, s, t);
        }
      }
    } else {
      hide CountsHere;
      hide LoopsOk;
      hide PlanRight;
    }
  }

  lemma {:induction false} CountedFollows(w: World, p: RuntimeProgram, loops: set<CountedLoop>, plan: CountedPlan,
      f: Frame, n: nat) returns (m: nat)
    requires PlanRight(p, loops, plan) && LoopsOk(p, loops)
    ensures m >= n && Related(p, loops, Run(w, p, Start(f), m), CountedRun(w, p, plan, f, n))
  {
    hide Step;
    hide CountedStep;
    hide PlanRight;
    hide LoopsOk;
    if n == 0 {
      m := 0;
      StartRelated(p, loops, f);
    } else {
      PlanSized(p, loops, plan);
      var before := CountedFollows(w, p, loops, plan, f, n - 1);
      RunStack(w, p, f, before);
      StepCounted(w, p, loops, plan, Run(w, p, Start(f), before), CountedRun(w, p, plan, f, n - 1));
      hide Related;
      m := if Related(p, loops, Run(w, p, Start(f), before + 1), CountedRun(w, p, plan, f, n))
        then before + 1 else before + 2;
    }
  }

  lemma PlanSized(p: RuntimeProgram, loops: set<CountedLoop>, plan: CountedPlan)
    requires PlanRight(p, loops, plan)
    ensures |plan.initializer_count| == |plan.suppress_instr| == |plan.latch| == |p.instrs|
  {
    hide IsCountedLoop;
  }

  lemma StartRelated(p: RuntimeProgram, loops: set<CountedLoop>, f: Frame)
    requires LoopsOk(p, loops)
    ensures Related(p, loops, Start(f), Start(f))
  {
    forall l | l in loops
      ensures l.header > 0
    {
      LoopBounds(p, l);
    }
    hide IsCountedLoop;
  }

  /** Every moment of the original run shows what some moment of the emitted run shows. */
  lemma {:induction false} CountedReaches(w: World, p: RuntimeProgram, loops: set<CountedLoop>, plan: CountedPlan,
      f: Frame, n: nat) returns (m: nat, k: nat)
    requires PlanRight(p, loops, plan) && LoopsOk(p, loops)
    ensures Related(p, loops, Run(w, p, Start(f), k), CountedRun(w, p, plan, f, m))
    ensures k >= n && (k == n || k == n + 1)
      && (k == n + 1 ==> m > 0 && Obs(CountedRun(w, p, plan, f, m - 1)) == Obs(Run(w, p, Start(f), n)))
  {
    hide Step;
    hide CountedStep;
    hide PlanRight;
    hide LoopsOk;
    if n == 0 {
      m, k := 0, 0;
      StartRelated(p, loops, f);
    } else {
      PlanSized(p, loops, plan);
      m, k := CountedReaches(w, p, loops, plan, f, n - 1);
      if k < n {
        var s, t := Run(w, p, Start(f), k), CountedRun(w, p, plan, f, m);
        RunStack(w, p, f, k);
        StepCounted(w, p, loops, plan, s, t);
        RelatedObs(p, loops, s, t);
        hide Related;
        if Related(p, loops, Step(w, p, s), CountedStep(w, p, plan, t)) {
          m, k := m + 1, n;
        } else {
          m, k := m + 1, n + 1;
        }
      }
    }
  }

  lemma RelatedObs(p: RuntimeProgram, loops: set<CountedLoop>, s: State, t: State)
    requires LoopsOk(p, loops) && Related(p, loops, s, t)
    ensures Obs(t) == Obs(s)
  {
    hide LoopsOk;
    hide CountsHere;
  }

  ghost predicate CountedShows(w: World, p: RuntimeProgram, plan: CountedPlan, f: Frame, o: (Trace, Status))
    requires |plan.initializer_count| == |plan.suppress_instr| == |plan.latch| == |p.instrs|
  {
    exists m: nat :: Obs(CountedRun(w, p, plan, f, m)) == o
  }

  /** Counting down can be observed to do the same as the guarded loops, if these are entered only through
      their initializers. */
  lemma CountingPreservesBehaviour(w: World, p: RuntimeProgram, loops: set<CountedLoop>, plan: CountedPlan, f: Frame,
      n: nat)
    requires PlanRight(p, loops, plan) && forall l :: l in loops ==> SideEntryFree(p, l)
    ensures CountedShows(w, p, plan, f, Obs(Run(w, p, Start(f), n)))
    ensures Matched(w, p, f, Obs(CountedRun(w, p, plan, f, n)))
  {
    assert LoopsOk(p, loops);
    PlanSized(p, loops, plan);
    hide LoopsOk;
    hide PlanRight;
    hide SideEntryFree;
    hide Run;
    hide CountedRun;
    hide Related;
    var m, k := CountedReaches(w, p, loops, plan, f, n);
    RelatedObs(p, loops, Run(w, p, Start(f), k), CountedRun(w, p, plan, f, m));
    var shown := if k == n then m else m - 1;
    assert Obs(CountedRun(w, p, plan, f, shown)) == Obs(Run(w, p, Start(f), n));
    var j := CountedFollows(w, p, loops, plan, f, n);
    RelatedObs(p, loops, Run(w, p, Start(f), j), CountedRun(w, p, plan, f, n));
    assert Obs(Run(w, p, Start(f), j)) == Obs(CountedRun(w, p, plan, f, n));
  }
}
