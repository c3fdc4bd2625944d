/** The emitted form of unrolled loops, without suppressed guards and with merged increments, runs in
    lockstep with the original. */
module ExactUnrollRuns {
  import opened Words
  import opened Ir
  import opened Semantics
  import opened Execution
  import opened Blocks
  import opened Fusion
  import opened FusionRuns
  import opened ExactUnroll
  import opened ExactUnrollCorrectness

  ghost function UnrolledStep(w: World, p: RuntimeProgram, plan: UnrollPlan, s: State): State
    requires |plan.suppress_guard| == |plan.induction_increment| == |p.instrs|
  {
    if s.status != Running || s.pc >= |p.instrs| then Step(w, p, s)
    else if plan.suppress_guard[s.pc] then s.(pc := s.pc + 1)
    else if plan.induction_increment[s.pc].Some? && p.instrs[s.pc].BinOpInPlace? then
      var (x, amount) := (p.instrs[s.pc].dst, plan.induction_increment[s.pc].value);
      if amount == 0 then s.(pc := s.pc + 1)
      else s.(pc := s.pc + 1, frame := s.frame[x := (Get(s.frame, x) + amount) % WORD])
    else Step(w, p, s)
  }

  ghost function UnrolledRun(w: World, p: RuntimeProgram, plan: UnrollPlan, f: Frame, n: nat): State
    requires |plan.suppress_guard| == |plan.induction_increment| == |p.instrs|
  {
    if n == 0 then Start(f) else UnrolledStep(w, p, plan, UnrolledRun(w, p, plan, f, n - 1))
  }

  // ----- loops do not share instructions -----

  lemma SameLoop(p: RuntimeProgram, l: UnrolledLoop, k: UnrolledLoop)
    requires IsUnrolledLoop(p, l) && IsUnrolledLoop(p, k) && l.header == k.header
    ensures l == k
  {
    hide BodyFits;
    hide Guards;
    hide Units;
    hide LastWrite;
    assert p.instrs[l.header] == JumpIfCmpFalse(LtUnsigned, Slot(l.induction), Imm(l.limit), l.latch + 1);
    assert p.instrs[k.header] == JumpIfCmpFalse(LtUnsigned, Slot(k.induction), Imm(k.limit), k.latch + 1);
  }

  lemma HeaderApart(p: RuntimeProgram, l: UnrolledLoop, k: UnrolledLoop)
    requires IsUnrolledLoop(p, l) && IsUnrolledLoop(p, k)
    ensures !(l.header < k.header <= l.latch)
  {
    UnrolledFacts(p, l);
    UnrolledFacts(p, k);
    if l.header < k.header < l.latch {
      BodyAt(p, l, k.header);
    }
    hide IsUnrolledLoop;
    hide Guards;
    hide Units;
  }

  lemma LoopsDistinct(p: RuntimeProgram, l: UnrolledLoop, k: UnrolledLoop, i: nat)
    requires IsUnrolledLoop(p, l) && IsUnrolledLoop(p, k) && Inside(l, i) && Inside(k, i)
    ensures l == k
  {
    HeaderApart(p, l, k);
    HeaderApart(p, k, l);
    hide IsUnrolledLoop;
    if l.header == k.header {
      SameLoop(p, l, k);
    }
  }

  // ----- how far the merged slot lags behind -----

  /** The emitted code has not yet made the additions of this pass, until the last increment makes them all. */
  function Lag(p: RuntimeProgram, l: UnrolledLoop, pc: nat): nat {
    if Units(p, l, pc) == Units(p, l, l.latch) then 0 else Units(p, l, pc)
  }

  predicate MergedIn(p: RuntimeProgram, l: UnrolledLoop, pc: nat, x: nat) {
    Inside(l, pc) && !UsedByBody(p, l) && l.induction == x
  }

  ghost predicate Lagging(p: RuntimeProgram, loops: set<UnrolledLoop>, pc: nat, x: nat) {
    exists l :: l in loops && MergedIn(p, l, pc, x) && Lag(p, l, pc) > 0
  }

  /** Slots agree, except that the induction slot of a merged loop lags behind. */
  ghost predicate Behind(p: RuntimeProgram, loops: set<UnrolledLoop>, pc: nat, f: Frame, h: Frame) {
    && (forall x :: !Lagging(p, loops, pc, x) ==> Get(h, x) == Get(f, x))
    && (forall l :: l in loops && MergedIn(p, l, pc, l.induction) ==>
      Get(f, l.induction) == Get(h, l.induction) + Lag(p, l, pc))
  }

  ghost predicate Together(p: RuntimeProgram, loops: set<UnrolledLoop>, s: State, t: State) {
    t == s.(frame := t.frame) && (s.status == Running && s.pc < |p.instrs| ==> Behind(p, loops, s.pc, s.frame, t.frame))
  }

  /** What holds of the original run at every step. */
  ghost predicate Expected(p: RuntimeProgram, loops: set<UnrolledLoop>, s: State) {
    s.status == Running ==>
      forall l :: l in loops && Inside(l, s.pc) ==>
        IsUnrolledLoop(p, l) && GuardsNeedless(p, l) && InPass(p, l, s.pc, Get(s.frame, l.induction))
  }

  ghost predicate AllUnrolled(p: RuntimeProgram, loops: set<UnrolledLoop>) {
    forall l :: l in loops ==> IsUnrolledLoop(p, l)
  }

  lemma LagEnds(p: RuntimeProgram, l: UnrolledLoop)
    requires IsUnrolledLoop(p, l)
    ensures Lag(p, l, l.header) == 0 && Lag(p, l, l.latch) == 0 && Units(p, l, l.header) == 0
  {
    UnrolledFacts(p, l);
    hide IsUnrolledLoop;
  }

  /** No lag outside the body. */
  lemma LaggingLoop(p: RuntimeProgram, loops: set<UnrolledLoop>, pc: nat, x: nat) returns (l: UnrolledLoop)
    requires AllUnrolled(p, loops) && Lagging(p, loops, pc, x)
    ensures l in loops && MergedIn(p, l, pc, x) && Lag(p, l, pc) > 0 && l.header < pc < l.latch
  {
    hide IsUnrolledLoop;
    hide Lag;
    hide UsedByBody;
    l :| l in loops && MergedIn(p, l, pc, x) && Lag(p, l, pc) > 0;
    LagEnds(p, l);
  }

  /** Moving inside one loop: only its own induction slot changes, and by what the lag says. */
  lemma BehindInside(p: RuntimeProgram, loops: set<UnrolledLoop>, l: UnrolledLoop, i: nat, j: nat, f: Frame, h: Frame,
      f': Frame, h': Frame)
    requires AllUnrolled(p, loops) && l in loops && Inside(l, i) && Inside(l, j) && Behind(p, loops, i, f, h)
    requires forall x :: x != l.induction ==> Get(f', x) == Get(f, x) && Get(h', x) == Get(h, x)
    requires UsedByBody(p, l) ==> Get(f', l.induction) == Get(h', l.induction)
    requires !UsedByBody(p, l) ==> Get(f', l.induction) == Get(h', l.induction) + Lag(p, l, j)
    ensures Behind(p, loops, j, f', h')
  {
    hide Lag;
    forall k | k in loops && (Inside(k, i) || Inside(k, j))
      ensures k == l
    {
      if Inside(k, i) {
        LoopsDistinct(p, l, k, i);
      } else {
        LoopsDistinct(p, l, k, j);
      }
    }
    hide IsUnrolledLoop;
    hide UsedByBody;
    forall x | !Lagging(p, loops, j, x)
      ensures Get(h', x) == Get(f', x)
    {
      if x == l.induction {
        assert MergedIn(p, l, j, x) ==> Lag(p, l, j) == 0;
      }
    }
  }

  /** Where two loops could matter, only one does. */
  lemma OnlyLag(p: RuntimeProgram, loops: set<UnrolledLoop>, l: UnrolledLoop, pc: nat)
    requires AllUnrolled(p, loops) && l in loops && Inside(l, pc) && (UsedByBody(p, l) || Lag(p, l, pc) == 0)
    ensures !Lagging(p, loops, pc, l.induction)
  {
    if Lagging(p, loops, pc, l.induction) {
      var k := LaggingLoop(p, loops, pc, l.induction);
      LoopsDistinct(p, l, k, pc);
    }
  }

  // ----- suppressed guards and merged increments -----

  ghost predicate Going(p: RuntimeProgram, loops: set<UnrolledLoop>, plan: UnrollPlan, s: State, t: State) {
    && UnrollRight(p, loops, plan) && AllUnrolled(p, loops) && Together(p, loops, s, t) && Expected(p, loops, s)
    && s.status == Running && s.pc < |p.instrs|
  }

  lemma UnitsAfter(p: RuntimeProgram, l: UnrolledLoop, i: nat)
    requires IsUnrolledLoop(p, l) && l.header <= i < l.latch
    ensures Units(p, l, i + 1) == Units(p, l, i) + (if IsUnit(p, l, i) then 1 else 0) <= Units(p, l, l.latch)
  {
    UnitsGrow(p, l, i + 1, l.latch);
    hide IsUnrolledLoop;
  }

  lemma EmitSuppressed(w: World, p: RuntimeProgram, plan: UnrollPlan, t: State)
    requires |plan.suppress_guard| == |plan.induction_increment| == |p.instrs|
    requires t.status == Running && t.pc < |p.instrs| && plan.suppress_guard[t.pc]
    ensures UnrolledStep(w, p, plan, t) == t.(pc := t.pc + 1)
  {
    hide Step;
  }

  lemma SameLag(p: RuntimeProgram, l: UnrolledLoop, i: nat)
    requires IsUnrolledLoop(p, l) && l.header <= i < l.latch && !IsUnit(p, l, i)
    ensures Lag(p, l, i + 1) == Lag(p, l, i)
  {
    hide IsUnrolledLoop;
    UnitsAfter(p, l, i);
    hide Units;
  }

  lemma SuppressedFrames(p: RuntimeProgram, loops: set<UnrolledLoop>, l: UnrolledLoop, i: nat, f: Frame, h: Frame)
    requires AllUnrolled(p, loops) && l in loops && Suppresses(p, l, i) && Behind(p, loops, i, f, h)
    ensures Behind(p, loops, i + 1, f, h)
  {
    GuardIsNotUnit(p, l, i);
    hide IsUnrolledLoop;
    hide IsUnit;
    hide Lag;
    hide UsedByBody;
    SameLag(p, l, i);
    if UsedByBody(p, l) {
      OnlyLag(p, loops, l, i);
    }
    assert !UsedByBody(p, l) ==> MergedIn(p, l, i, l.induction);
    BehindInside(p, loops, l, i, i + 1, f, h, f, h);
  }

  lemma StepSuppressed(w: World, p: RuntimeProgram, loops: set<UnrolledLoop>, plan: UnrollPlan, l: UnrolledLoop,
      s: State, t: State)
    requires Going(p, loops, plan, s, t) && l in loops && Suppresses(p, l, s.pc)
    ensures Together(p, loops, Step(w, p, s), UnrolledStep(w, p, plan, t))
  {
    hide Step;
    hide UnrolledStep;
    hide IsUnrolledLoop;
    hide Behind;
    hide GuardsNeedless;
    hide InPass;
    assert plan.suppress_guard[s.pc];
    EmitSuppressed(w, p, plan, t);
    hide UnrollRight;
    assert Inside(l, s.pc);
    SuppressedSucceeds(p, l, s.pc, Get(s.frame, l.induction));
    hide Expected;
    GuardStep(w, p, l, s);
    SuppressedFrames(p, loops, l, s.pc, s.frame, t.frame);
  }

  lemma MergedAt(p: RuntimeProgram, loops: set<UnrolledLoop>, plan: UnrollPlan, l: UnrolledLoop, i: nat)
    requires UnrollRight(p, loops, plan) && AllUnrolled(p, loops) && l in loops && Merges(p, l, i) && i < |p.instrs|
    ensures !plan.suppress_guard[i] && plan.induction_increment[i] == Some(MergedAmount(p, l, i))
  {
    hide IsUnrolledLoop;
    hide UsedByBody;
    hide MergedAmount;
    assert IncrementRight(p, loops, i, plan.induction_increment[i]);
    forall k | k in loops && (Merges(p, k, i) || Suppresses(p, k, i))
      ensures k == l
    {
      LoopsDistinct(p, l, k, i);
    }
  }

  lemma EmitMerged(w: World, p: RuntimeProgram, plan: UnrollPlan, l: UnrolledLoop, t: State)
    requires |plan.suppress_guard| == |plan.induction_increment| == |p.instrs| && IsUnit(p, l, t.pc)
    requires t.status == Running && !plan.suppress_guard[t.pc]
      && plan.induction_increment[t.pc] == Some(MergedAmount(p, l, t.pc))
    requires Get(t.frame, l.induction) + MergedAmount(p, l, t.pc) < WORD
    ensures
      var t' := UnrolledStep(w, p, plan, t);
      && t' == t.(pc := t.pc + 1, frame := t'.frame)
      && Get(t'.frame, l.induction) == Get(t.frame, l.induction) + MergedAmount(p, l, t.pc)
      && forall x :: x != l.induction ==> Get(t'.frame, x) == Get(t.frame, x)
  {
    hide Step;
    hide MergedAmount;
  }

  /** One addition catches up with the lag, or makes it longer by one. */
  lemma LagStep(p: RuntimeProgram, l: UnrolledLoop, i: nat)
    requires IsUnrolledLoop(p, l) && IsUnit(p, l, i)
    ensures Lag(p, l, i) + 1 == MergedAmount(p, l, i) + Lag(p, l, i + 1)
  {
    UnitsAfter(p, l, i);
    hide IsUnrolledLoop;
    hide Units;
  }

  /** The frames after a merged increment, original and emitted. */
  lemma MergedFrames(p: RuntimeProgram, loops: set<UnrolledLoop>, l: UnrolledLoop, i: nat, f: Frame, h: Frame)
    requires AllUnrolled(p, loops) && l in loops && Merges(p, l, i) && Behind(p, loops, i, f, h)
    requires InPass(p, l, i, Get(f, l.induction))
    ensures Get(f, l.induction) + 1 < WORD && Get(h, l.induction) + MergedAmount(p, l, i) < WORD
    ensures forall h': Frame ::
      Get(h', l.induction) == Get(h, l.induction) + MergedAmount(p, l, i)
        && (forall x :: x != l.induction ==> Get(h', x) == Get(h, x)) ==>
        Behind(p, loops, i + 1, f[l.induction := Get(f, l.induction) + 1], h')
  {
    hide IsUnrolledLoop;
    hide Lag;
    hide MergedAmount;
    hide InPass;
    hide UsedByBody;
    GuardIsNotUnit(p, l, i);
    PassGoesOn(p, l, i, Get(f, l.induction));
    LagStep(p, l, i);
    assert MergedIn(p, l, i, l.induction);
    assert Get(f, l.induction) == Get(h, l.induction) + Lag(p, l, i);
    var f' := f[l.induction := Get(f, l.induction) + 1];
    forall h': Frame | Get(h', l.induction) == Get(h, l.induction) + MergedAmount(p, l, i)
      && (forall x :: x != l.induction ==> Get(h', x) == Get(h, x))
      ensures Behind(p, loops, i + 1, f', h')
    {
      BehindInside(p, loops, l, i, i + 1, f, h, f', h');
    }
  }

  lemma StepMerged(w: World, p: RuntimeProgram, loops: set<UnrolledLoop>, plan: UnrollPlan, l: UnrolledLoop, s: State,
      t: State)
    requires Going(p, loops, plan, s, t) && l in loops && Merges(p, l, s.pc)
    ensures Together(p, loops, Step(w, p, s), UnrolledStep(w, p, plan, t))
  {
    hide Step;
    hide UnrolledStep;
    hide IsUnrolledLoop;
    hide MergedAmount;
    hide UsedByBody;
    hide Behind;
    hide InPass;
    assert Inside(l, s.pc);
    assert InPass(p, l, s.pc, Get(s.frame, l.induction));
    MergedAt(p, loops, plan, l, s.pc);
    assert |plan.suppress_guard| == |plan.induction_increment| == |p.instrs|;
    hide UnrollRight;
    hide Expected;
    UnitStep(w, p, l, s);
    MergedFrames(p, loops, l, s.pc, s.frame, t.frame);
    hide AllUnrolled;
    EmitMerged(w, p, plan, l, t);
  }

  // ----- all other instructions -----

  ghost predicate NotMarked(p: RuntimeProgram, loops: set<UnrolledLoop>, i: nat) {
    forall l :: l in loops ==> !Suppresses(p, l, i) && !Merges(p, l, i)
  }

  /** What an unmarked instruction reads does not lag behind. */
  lemma UnmarkedReads(p: RuntimeProgram, loops: set<UnrolledLoop>, i: nat, x: nat)
    requires AllUnrolled(p, loops) && NotMarked(p, loops, i) && i < |p.instrs| && ReadsSlot(p.instrs[i], x)
    ensures !Lagging(p, loops, i, x)
  {
    hide ReadsSlot;
    hide Lag;
    hide IsUnrolledLoop;
    if Lagging(p, loops, i, x) {
      var l := LaggingLoop(p, loops, i, x);
    }
  }

  /** In a loop, control goes on to the next instruction, or from the latch back to the header. */
  lemma MovesInside(p: RuntimeProgram, l: UnrolledLoop, i: nat, j: nat)
    requires IsUnrolledLoop(p, l) && i < |p.instrs| && StaticNext(p, i, j) && Inside(l, i) && Inside(l, j)
    ensures (i < l.latch && j == i + 1) || (i == l.latch && j == l.header)
  {
    UnrolledFacts(p, l);
    if i < l.latch {
      BodyAt(p, l, i);
    }
    hide IsUnrolledLoop;
    hide WriteSlots;
    hide Guards;
    hide Units;
  }

  /** An unmarked instruction that lies in the middle of a loop with merged increments, with its effect on the lag. */
  lemma UnmarkedInside(p: RuntimeProgram, l: UnrolledLoop, i: nat, j: nat)
    requires IsUnrolledLoop(p, l) && !Suppresses(p, l, i) && !Merges(p, l, i) && !UsedByBody(p, l)
    requires i < |p.instrs| && StaticNext(p, i, j) && Inside(l, i)
    ensures l.header < i < l.latch ==> l.induction !in WriteSlots(p.instrs[i]) && j == i + 1
    ensures Inside(l, j) ==> Lag(p, l, j) == Lag(p, l, i)
  {
    hide IsUnrolledLoop;
    hide Lag;
    hide Guards;
    hide Units;
    hide UsedByBody;
    UnrolledFacts(p, l);
    LagEnds(p, l);
    if i < l.latch {
      BodyAt(p, l, i);
      if !IsUnit(p, l, i) {
        SameLag(p, l, i);
      }
    }
    if Inside(l, j) {
      MovesInside(p, l, i, j);
    }
  }

  lemma StillLagging(p: RuntimeProgram, loops: set<UnrolledLoop>, i: nat, j: nat, x: nat)
    requires AllUnrolled(p, loops) && NotMarked(p, loops, i) && i < |p.instrs| && StaticNext(p, i, j)
      && Lagging(p, loops, i, x)
    ensures Lagging(p, loops, j, x)
  {
    hide StaticNext;
    hide IsUnrolledLoop;
    hide Suppresses;
    hide Merges;
    hide UsedByBody;
    hide Lag;
    var l := LaggingLoop(p, loops, i, x);
    UnmarkedInside(p, l, i, j);
    assert MergedIn(p, l, j, x);
  }

  ghost predicate EntersAtHeader(loops: set<UnrolledLoop>, i: nat, j: nat) {
    forall l :: l in loops && Inside(l, j) && !Inside(l, i) ==> j == l.header
  }

  lemma StaysBehind(p: RuntimeProgram, loops: set<UnrolledLoop>, i: nat, j: nat, f: Frame, h: Frame, f': Frame,
      h': Frame)
    requires AllUnrolled(p, loops) && NotMarked(p, loops, i) && i < |p.instrs| && StaticNext(p, i, j)
    requires EntersAtHeader(loops, i, j) && Behind(p, loops, i, f, h)
    requires forall x :: x in WriteSlots(p.instrs[i]) ==> Get(h', x) == Get(f', x)
    requires forall x :: x !in WriteSlots(p.instrs[i]) ==> Get(h', x) == Get(h, x) && Get(f', x) == Get(f, x)
    ensures Behind(p, loops, j, f', h')
  {
    hide StaticNext;
    hide WriteSlots;
    hide IsUnrolledLoop;
    hide Suppresses;
    hide Merges;
    hide UsedByBody;
    hide Lag;
    forall x | !Lagging(p, loops, j, x)
      ensures Get(h', x) == Get(f', x)
    {
      if Lagging(p, loops, i, x) {
        StillLagging(p, loops, i, j, x);
      }
    }
    forall l | l in loops && MergedIn(p, l, j, l.induction)
      ensures Get(f', l.induction) == Get(h', l.induction) + Lag(p, l, j)
    {
      if Inside(l, i) {
        UnmarkedInside(p, l, i, j);
        KeepsLag(p, loops, l, i, j, f, h, f', h');
      } else {
        LagEnds(p, l);
        OnlyLag(p, loops, l, j);
      }
    }
  }

  lemma KeepsLag(p: RuntimeProgram, loops: set<UnrolledLoop>, l: UnrolledLoop, i: nat, j: nat, f: Frame, h: Frame,
      f': Frame, h': Frame)
    requires AllUnrolled(p, loops) && l in loops && i < |p.instrs| && Behind(p, loops, i, f, h)
      && MergedIn(p, l, i, l.induction)
    requires l.header < i < l.latch ==> l.induction !in WriteSlots(p.instrs[i])
    requires Lag(p, l, j) == Lag(p, l, i)
    requires forall x :: x in WriteSlots(p.instrs[i]) ==> Get(h', x) == Get(f', x)
    requires forall x :: x !in WriteSlots(p.instrs[i]) ==> Get(h', x) == Get(h, x) && Get(f', x) == Get(f, x)
    ensures Get(f', l.induction) == Get(h', l.induction) + Lag(p, l, j)
  {
    hide WriteSlots;
    hide Lag;
    hide UsedByBody;
    assert Get(f, l.induction) == Get(h, l.induction) + Lag(p, l, i);
    LagEnds(p, l);
    hide IsUnrolledLoop;
  }

  lemma EmitUnmarked(w: World, p: RuntimeProgram, loops: set<UnrolledLoop>, plan: UnrollPlan, t: State)
    requires UnrollRight(p, loops, plan) && t.status == Running && t.pc < |p.instrs| && NotMarked(p, loops, t.pc)
    ensures UnrolledStep(w, p, plan, t) == Step(w, p, t)
  {
    hide Step;
    hide IsUnrolledLoop;
    hide Suppresses;
    hide Merges;
    assert IncrementRight(p, loops, t.pc, plan.induction_increment[t.pc]);
  }

  lemma UnmarkedControl(w: World, p: RuntimeProgram, loops: set<UnrolledLoop>, s: State, t: State)
    requires AllUnrolled(p, loops) && Together(p, loops, s, t) && s.status == Running && s.pc < |p.instrs|
      && StackOfCalls(p, s)
    requires IsControl(p.instrs[s.pc]) && NotMarked(p, loops, s.pc)
    requires Step(w, p, s).status == Running ==> EntersAtHeader(loops, s.pc, Step(w, p, s).pc)
    requires forall x :: ReadsSlot(p.instrs[s.pc], x) ==> Get(t.frame, x) == Get(s.frame, x)
    ensures Together(p, loops, Step(w, p, s), Step(w, p, t))
  {
    hide Behind;
    hide AllUnrolled;
    hide NotMarked;
    hide EntersAtHeader;
    assert forall x :: x in ReadSlots(p.instrs[s.pc]) ==> ReadsSlot(p.instrs[s.pc], x);
    hide ReadsSlot;
    ControlSame(w, p, s, t.frame);
    StepFollows(w, p, s);
    hide Step;
    hide ReadSlots;
    hide StaticNext;
    if Step(w, p, s).status == Running && Step(w, p, s).pc < |p.instrs| {
      StaysBehind(p, loops, s.pc, Step(w, p, s).pc, s.frame, t.frame, s.frame, t.frame);
    }
  }

  lemma UnmarkedPlain(w: World, p: RuntimeProgram, loops: set<UnrolledLoop>, s: State, t: State)
    requires AllUnrolled(p, loops) && Together(p, loops, s, t) && s.status == Running && s.pc < |p.instrs|
    requires !IsControl(p.instrs[s.pc]) && NotMarked(p, loops, s.pc)
    requires Step(w, p, s).status == Running ==> EntersAtHeader(loops, s.pc, s.pc + 1)
    requires forall x :: ReadsSlot(p.instrs[s.pc], x) ==> Get(t.frame, x) == Get(s.frame, x)
    ensures Together(p, loops, Step(w, p, s), Step(w, p, t))
  {
    hide Behind;
    hide AllUnrolled;
    hide NotMarked;
    hide EntersAtHeader;
    hide ReadsSlot;
    var i := p.instrs[s.pc];
    ExecReads(w, i, s.frame, t.frame, s.trace);
    StepPlain(w, p, s);
    StepPlain(w, p, t);
    hide Step;
    hide Exec;
    var e, d := Exec(w, i, s.frame, s.trace), Exec(w, i, t.frame, s.trace);
    if e.Next? && s.pc + 1 < |p.instrs| {
      assert StaticNext(p, s.pc, s.pc + 1);
      StaysBehind(p, loops, s.pc, s.pc + 1, s.frame, t.frame, e.frame, d.frame);
    }
  }

  // ----- whole runs -----

  lemma StepTogether(w: World, p: RuntimeProgram, loops: set<UnrolledLoop>, plan: UnrollPlan, s: State, t: State)
    requires UnrollRight(p, loops, plan) && AllUnrolled(p, loops) && Together(p, loops, s, t) && Expected(p, loops, s)
      && StackOfCalls(p, s)
    requires s.status == Running && Step(w, p, s).status == Running ==> EntersAtHeader(loops, s.pc, Step(w, p, s).pc)
    ensures Together(p, loops, Step(w, p, s), UnrolledStep(w, p, plan, t))
  {
    if s.status == Running && s.pc < |p.instrs| {
      assert Going(p, loops, plan, s, t);
      hide Step;
      hide UnrolledStep;
      hide UnrollRight;
      hide AllUnrolled;
      hide Expected;
      if NotMarked(p, loops, s.pc) {
        EmitUnmarked(w, p, loops, plan, t);
        StepUnmarked(w, p, loops, s, t);
      } else {
        hide Together;
        hide Going;
        var l :| l in loops && (Suppresses(p, l, s.pc) || Merges(p, l, s.pc));
        if Suppresses(p, l, s.pc) {
          StepSuppressed(w, p, loops, plan, l, s, t);
        } else {
          StepMerged(w, p, loops, plan, l, s, t);
        }
      }
    } else {
      hide Behind;
      hide UnrollRight;
      hide Expected;
    }
  }

  lemma StepUnmarked(w: World, p: RuntimeProgram, loops: set<UnrolledLoop>, s: State, t: State)
    requires AllUnrolled(p, loops) && Together(p, loops, s, t) && StackOfCalls(p, s)
    requires s.status == Running && s.pc < |p.instrs| && NotMarked(p, loops, s.pc)
    requires Step(w, p, s).status == Running ==> EntersAtHeader(loops, s.pc, Step(w, p, s).pc)
    ensures Together(p, loops, Step(w, p, s), Step(w, p, t))
  {
    hide AllUnrolled;
    hide NotMarked;
    hide EntersAtHeader;
    hide ReadsSlot;
    forall x | ReadsSlot(p.instrs[s.pc], x)
      ensures Get(t.frame, x) == Get(s.frame, x)
    {
      UnmarkedReads(p, loops, s.pc, x);
    }
    hide Behind;
    if IsControl(p.instrs[s.pc]) {
      hide Step;
      UnmarkedControl(w, p, loops, s, t);
    } else {
      StepPlain(w, p, s);
      StepPlain(w, p, t);
      hide Step;
      UnmarkedPlain(w, p, loops, s, t);
    }
  }

  ghost predicate AllEntered(w: World, p: RuntimeProgram, f: Frame, loops: set<UnrolledLoop>) {
    forall l :: l in loops ==> IsUnrolledLoop(p, l) && GuardsNeedless(p, l) && Entered(w, p, f, l)
  }

  lemma ExpectedOnRun(w: World, p: RuntimeProgram, loops: set<UnrolledLoop>, f: Frame, n: nat)
    requires AllEntered(w, p, f, loops)
    ensures Expected(p, loops, Run(w, p, Start(f), n)) && AllUnrolled(p, loops)
    ensures var s, s' := Run(w, p, Start(f), n), Run(w, p, Start(f), n + 1);
      s.status == Running && s'.status == Running ==> EntersAtHeader(loops, s.pc, s'.pc)
  {
    hide Run;
    hide IsUnrolledLoop;
    hide GuardsNeedless;
    forall l | l in loops
      ensures var s, s' := Run(w, p, Start(f), n), Run(w, p, Start(f), n + 1);
        EntersRight(l, s, s')
          && (s.status == Running && Inside(l, s.pc) ==> InPass(p, l, s.pc, Get(s.frame, l.induction)))
    {
      PassOnRun(w, p, l, f, n);
      assert EntersRight(l, Run(w, p, Start(f), n), Run(w, p, Start(f), n + 1));
    }
    hide InPass;
  }

  lemma {:induction false} TogetherOnRuns(w: World, p: RuntimeProgram, loops: set<UnrolledLoop>, plan: UnrollPlan,
      f: Frame, n: nat)
    requires UnrollRight(p, loops, plan) && AllEntered(w, p, f, loops)
    ensures Together(p, loops, Run(w, p, Start(f), n), UnrolledRun(w, p, plan, f, n))
  {
    hide Step;
    hide UnrolledStep;
    hide AllEntered;
    if n == 0 {
      ExpectedOnRun(w, p, loops, f, 0);
      StartTogether(p, loops, f);
    } else {
      TogetherOnRuns(w, p, loops, plan, f, n - 1);
      ExpectedOnRun(w, p, loops, f, n - 1);
      RunStack(w, p, f, n - 1);
      hide Together;
      hide Expected;
      hide AllUnrolled;
      assert Run(w, p, Start(f), n - 1 + 1) == Step(w, p, Run(w, p, Start(f), n - 1));
      StepTogether(w, p, loops, plan, Run(w, p, Start(f), n - 1), UnrolledRun(w, p, plan, f, n - 1));
    }
  }

  lemma StartTogether(p: RuntimeProgram, loops: set<UnrolledLoop>, f: Frame)
    requires AllUnrolled(p, loops)
    ensures Together(p, loops, Start(f), Start(f))
  {
    forall l | l in loops && MergedIn(p, l, 0, l.induction)
      ensures Lag(p, l, 0) == 0
    {
      LagEnds(p, l);
    }
    hide IsUnrolledLoop;
    hide Lag;
  }

  /** On every run that enters the loops right, the emitted code shows the same at every step. */
  lemma UnrollingPreservesRuns(w: World, p: RuntimeProgram, loops: set<UnrolledLoop>, plan: UnrollPlan, f: Frame,
      n: nat)
    requires UnrollRight(p, loops, plan) && AllEntered(w, p, f, loops)
    ensures Obs(UnrolledRun(w, p, plan, f, n)) == Obs(Run(w, p, Start(f), n))
  {
    TogetherOnRuns(w, p, loops, plan, f, n);
    hide Run;
    hide UnrolledRun;
    hide Behind;
    hide UnrollRight;
    hide AllEntered;
  }
}
