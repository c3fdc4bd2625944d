/** Loops that the exact-unroll plan takes although its emitted code shows something else. */
module UnrollCounterexamples {
  import opened Words
  import opened Ir
  import opened Semantics
  import opened Blocks
  import opened Fusion
  import opened ExactUnroll
  import opened ExactUnrollCorrectness
  import opened ExactUnrollRuns
  import opened UnrollEntry

  // ----- a definition that control can bypass -----

  /** The move at 1 is the last write of slot 0 above the loop, but control can jump past it. */
  const BYPASS := RuntimeProgram(2, [
    JumpIfZero(1, 2),
    Mov(0, Imm(0)),
    JumpIfCmpFalse(LtUnsigned, Slot(0), Imm(2), 8),
    BinOpInPlace(0, Add, Imm(1)),
    JumpIfCmpFalse(LtUnsigned, Slot(0), Imm(2), 8),
    PrintConst("x"),
    BinOpInPlace(0, Add, Imm(1)),
    Jump(2),
    Exit(Imm(0))
  ])

  const BYPASS_LOOP := UnrolledLoop(2, 7, 0, 0, 2)

  const BYPASS_START: Frame := map[0 := 1, 1 := 0]

  lemma BypassShape()
    ensures HasUnrolledShape(BYPASS, BYPASS_LOOP) && BodyFits(BYPASS, BYPASS_LOOP, 7)
  {
    var p, l := BYPASS, BYPASS_LOOP;
    assert LastWrite(p, 0, 2) == Some(1);
    forall i | 2 <= i < 7
      ensures InUnrolled(p, l, i)
    {
      assert i == 2 || i == 3 || i == 4 || i == 5 || i == 6;
    }
  }

  lemma BypassMarks()
    ensures forall i: nat :: IsGuard(BYPASS, BYPASS_LOOP, i) <==> i == 2 || i == 4
    ensures forall i: nat :: IsUnit(BYPASS, BYPASS_LOOP, i) <==> i == 3 || i == 6
    ensures !UsedByBody(BYPASS, BYPASS_LOOP)
  {}

  lemma BypassCounts()
    ensures Guards(BYPASS, BYPASS_LOOP, 7) == 2 && Units(BYPASS, BYPASS_LOOP, 7) == 2
    ensures Units(BYPASS, BYPASS_LOOP, 2) == 0 && Units(BYPASS, BYPASS_LOOP, 4) == 1
      && Units(BYPASS, BYPASS_LOOP, 3) == 0
    ensures forall i: nat :: IsGuard(BYPASS, BYPASS_LOOP, i) <==> i == 2 || i == 4
    ensures forall i: nat :: IsUnit(BYPASS, BYPASS_LOOP, i) <==> i == 3 || i == 6
    ensures !UsedByBody(BYPASS, BYPASS_LOOP)
  {
    var p, l := BYPASS, BYPASS_LOOP;
    BypassMarks();
    hide IsGuard;
    hide IsUnit;
    hide UsedByBody;
    assert Guards(p, l, 2) == 0 && Guards(p, l, 3) == 1 && Guards(p, l, 4) == 1 && Guards(p, l, 5) == 2;
    assert Guards(p, l, 6) == 2 && Guards(p, l, 7) == 2;
    assert Units(p, l, 2) == 0 && Units(p, l, 3) == 0 && Units(p, l, 4) == 1 && Units(p, l, 5) == 1;
    assert Units(p, l, 6) == 1 && Units(p, l, 7) == 2;
  }

  lemma BypassRun(w: World)
    ensures Run(w, BYPASS, Start(BYPASS_START), 5).status == Exited(0)
    ensures Run(w, BYPASS, Start(BYPASS_START), 5).trace == []
  {
    var p, s0 := BYPASS, Start(BYPASS_START);
    var s1 := s0.(pc := 2);
    var s2 := s0.(pc := 3);
    var s3 := s0.(pc := 4, frame := BYPASS_START[0 := 2]);
    var s4 := s3.(pc := 8);
    assert Step(w, p, s0) == s1;
    assert Step(w, p, s1) == s2;
    assert Step(w, p, s2) == s3;
    assert Step(w, p, s3) == s4;
    assert Step(w, p, s4) == s4.(status := Exited(0));
    hide Step;
    assert Run(w, p, s0, 0) == s0;
    assert Run(w, p, s0, 1) == s1;
    assert Run(w, p, s0, 2) == s2;
    assert Run(w, p, s0, 3) == s3;
    assert Run(w, p, s0, 4) == s4;
  }

  lemma BypassEmitted(w: World, plan: UnrollPlan)
    requires |plan.suppress_guard| == |plan.induction_increment| == 9
    requires !plan.suppress_guard[0] && !plan.suppress_guard[2] && !plan.suppress_guard[3] && plan.suppress_guard[4]
    requires !plan.suppress_guard[5] && plan.induction_increment[3] == Some(0)
    requires plan.induction_increment[0].None? && plan.induction_increment[2].None? && plan.induction_increment[5].None?
    ensures UnrolledRun(w, BYPASS, plan, BYPASS_START, 5).trace == [Text("x")]
  {
    var p, s0 := BYPASS, Start(BYPASS_START);
    assert UnrolledStep(w, p, plan, s0) == s0.(pc := 2);
    assert UnrolledStep(w, p, plan, s0.(pc := 2)) == s0.(pc := 3);
    assert UnrolledStep(w, p, plan, s0.(pc := 3)) == s0.(pc := 4);
    assert UnrolledStep(w, p, plan, s0.(pc := 4)) == s0.(pc := 5);
    assert [] + [Text("x")] == [Text("x")];
    assert UnrolledStep(w, p, plan, s0.(pc := 5)).trace == [Text("x")];
    hide UnrolledStep;
    assert UnrolledRun(w, p, plan, BYPASS_START, 0) == s0;
    assert UnrolledRun(w, p, plan, BYPASS_START, 1) == s0.(pc := 2);
    assert UnrolledRun(w, p, plan, BYPASS_START, 2) == s0.(pc := 3);
    assert UnrolledRun(w, p, plan, BYPASS_START, 3) == s0.(pc := 4);
    assert UnrolledRun(w, p, plan, BYPASS_START, 4) == s0.(pc := 5);
  }

  lemma BypassShapeOnly(l: UnrolledLoop)
    requires HasUnrolledShape(BYPASS, l)
    ensures l == BYPASS_LOOP
  {
    assert LastWrite(BYPASS, 0, 2) == Some(1);
    hide LastWrite;
  }

  lemma BypassOnly(l: UnrolledLoop)
    ensures IsUnrolledLoop(BYPASS, l) <==> l == BYPASS_LOOP
  {
    BypassShape();
    BypassCounts();
    hide HasUnrolledShape;
    hide BodyFits;
    hide Guards;
    hide Units;
    if IsUnrolledLoop(BYPASS, l) {
      BypassShapeOnly(l);
    }
  }

  lemma BypassPlan(plan: UnrollPlan)
    requires UnrollRight(BYPASS, {BYPASS_LOOP}, plan)
    ensures |plan.suppress_guard| == |plan.induction_increment| == 9
    ensures forall i: nat :: i < 9 ==> (plan.suppress_guard[i] <==> i == 4)
    ensures plan.induction_increment[3] == Some(0) && forall i: nat :: i < 9 && i != 3 && i != 6 ==>
      plan.induction_increment[i].None?
  {
    BypassCounts();
    hide IsUnrolledLoop;
    hide UsedByBody;
    hide Units;
    hide Guards;
    hide IsGuard;
    hide IsUnit;
    forall i: nat | i < 9
      ensures IncrementRight(BYPASS, {BYPASS_LOOP}, i, plan.induction_increment[i])
    {}
  }

  lemma BypassUnsafe()
    ensures NoSideEntry(BYPASS, BYPASS_LOOP) && !Initialised(BYPASS, BYPASS_LOOP)
  {
    var p, l := BYPASS, BYPASS_LOOP;
    assert LastWrite(p, 0, 2) == Some(1);
    SeedReached(p, {0}, {}, 0);
    SeedReached(p, Undefining(p, 0, 1), Writers(p, 0), 0);
    assert Executed(p, 0) && Undefined(p, 0, 1, 0);
    hide ReachedFrom;
    hide LastWrite;
    assert StaticNext(p, 0, 2) && 0 !in Writers(p, 0);
  }

  /** The plan takes a loop whose definition control can bypass; with another value in the slot, the
      original leaves without output and the emitted code prints. */
  lemma BypassBreaksUnrolling(w: World, loops: set<UnrolledLoop>, plan: UnrollPlan)
    requires UnrollRight(BYPASS, loops, plan) && forall l: UnrolledLoop :: l in loops <==> IsUnrolledLoop(BYPASS, l)
    ensures BYPASS_LOOP in loops && IncrementsEnd(BYPASS, BYPASS_LOOP) && !SafeToUnroll(BYPASS, BYPASS_LOOP)
    ensures Obs(Run(w, BYPASS, Start(BYPASS_START), 5)) == ([], Exited(0))
    ensures UnrolledRun(w, BYPASS, plan, BYPASS_START, 5).trace == [Text("x")]
  {
    hide UnrollRight;
    hide IsUnrolledLoop;
    forall l: UnrolledLoop
      ensures l in loops <==> l == BYPASS_LOOP
    {
      BypassOnly(l);
    }
    assert loops == {BYPASS_LOOP};
    hide *;
    BypassEnd();
    BypassPlan(plan);
    BypassUnsafe();
    BypassUnsafeLoop();
    BypassRun(w);
    BypassEmitted(w, plan);
    ObsIs(Run(w, BYPASS, Start(BYPASS_START), 5));
  }

  lemma BypassEnd()
    ensures IncrementsEnd(BYPASS, BYPASS_LOOP)
  {
    BypassCounts();
    hide IsGuard;
    hide Units;
    hide Guards;
  }

  lemma BypassUnsafeLoop()
    ensures !SafeToUnroll(BYPASS, BYPASS_LOOP)
  {
    BypassUnsafe();
    hide Initialised;
    hide IsUnrolledLoop;
  }

  lemma ObsIs(s: State)
    ensures Obs(s) == (s.trace, s.status)
  {}

  // ----- a guard after all increments -----

  const LATE := RuntimeProgram(1, [
    Mov(0, Imm(0)),
    JumpIfCmpFalse(LtUnsigned, Slot(0), Imm(2), 7),
    BinOpInPlace(0, Add, Imm(1)),
    BinOpInPlace(0, Add, Imm(1)),
    JumpIfCmpFalse(LtUnsigned, Slot(0), Imm(2), 7),
    PrintConst("x"),
    Jump(1),
    Exit(Imm(0))
  ])

  const LATE_LOOP := UnrolledLoop(1, 6, 0, 0, 2)

  lemma LateShape()
    ensures HasUnrolledShape(LATE, LATE_LOOP) && BodyFits(LATE, LATE_LOOP, 6)
  {
    var p, l := LATE, LATE_LOOP;
    assert LastWrite(p, 0, 1) == Some(0);
    forall i | 1 <= i < 6
      ensures InUnrolled(p, l, i)
    {
      assert i == 1 || i == 2 || i == 3 || i == 4 || i == 5;
    }
  }

  lemma LateMarks()
    ensures forall i: nat :: IsGuard(LATE, LATE_LOOP, i) <==> i == 1 || i == 4
    ensures forall i: nat :: IsUnit(LATE, LATE_LOOP, i) <==> i == 2 || i == 3
    ensures !UsedByBody(LATE, LATE_LOOP)
  {}

  lemma LateCounts()
    ensures Guards(LATE, LATE_LOOP, 6) == 2 && Units(LATE, LATE_LOOP, 6) == 2
    ensures Units(LATE, LATE_LOOP, 3) == 1 && Units(LATE, LATE_LOOP, 4) == 2
    ensures forall i: nat :: IsGuard(LATE, LATE_LOOP, i) <==> i == 1 || i == 4
    ensures forall i: nat :: IsUnit(LATE, LATE_LOOP, i) <==> i == 2 || i == 3
    ensures !UsedByBody(LATE, LATE_LOOP)
  {
    var p, l := LATE, LATE_LOOP;
    LateMarks();
    hide IsGuard;
    hide IsUnit;
    hide UsedByBody;
    assert Guards(p, l, 1) == 0 && Guards(p, l, 2) == 1 && Guards(p, l, 3) == 1 && Guards(p, l, 4) == 1;
    assert Guards(p, l, 5) == 2 && Guards(p, l, 6) == 2;
    assert Units(p, l, 1) == 0 && Units(p, l, 2) == 0 && Units(p, l, 3) == 1 && Units(p, l, 4) == 2;
    assert Units(p, l, 5) == 2 && Units(p, l, 6) == 2;
  }

  lemma LateShapeOnly(l: UnrolledLoop)
    requires HasUnrolledShape(LATE, l)
    ensures l == LATE_LOOP
  {
    assert LastWrite(LATE, 0, 1) == Some(0);
    hide LastWrite;
  }

  lemma LateOnly(l: UnrolledLoop)
    ensures IsUnrolledLoop(LATE, l) <==> l == LATE_LOOP
  {
    LateShape();
    LateCounts();
    hide HasUnrolledShape;
    hide BodyFits;
    hide Guards;
    hide Units;
    if IsUnrolledLoop(LATE, l) {
      LateShapeOnly(l);
    }
  }

  lemma LatePlan(plan: UnrollPlan)
    requires UnrollRight(LATE, {LATE_LOOP}, plan)
    ensures |plan.suppress_guard| == |plan.induction_increment| == 8
    ensures forall i: nat :: i < 8 ==> (plan.suppress_guard[i] <==> i == 4)
    ensures plan.induction_increment[2] == Some(0) && plan.induction_increment[3] == Some(2)
    ensures forall i: nat :: i < 8 && i != 2 && i != 3 ==> plan.induction_increment[i].None?
  {
    LateCounts();
    hide IsUnrolledLoop;
    hide UsedByBody;
    hide Units;
    hide Guards;
    hide IsGuard;
    hide IsUnit;
    forall i: nat | i < 8
      ensures IncrementRight(LATE, {LATE_LOOP}, i, plan.induction_increment[i])
    {}
  }

  const LATE_STATE := State(4, map[0 := 2], [], [], Running)

  lemma LateFirst(w: World)
    ensures Run(w, LATE, Start(map[]), 4) == LATE_STATE
  {
    var p, s0 := LATE, Start(map[]);
    var s1 := s0.(pc := 1, frame := map[0 := 0]);
    var s3 := s1.(pc := 3, frame := map[0 := 1]);
    assert Step(w, p, s0) == s1;
    assert Step(w, p, s1) == s1.(pc := 2);
    assert Step(w, p, s1.(pc := 2)) == s3;
    assert Step(w, p, s3) == LATE_STATE;
    hide Step;
    assert Run(w, p, s0, 0) == s0;
    assert Run(w, p, s0, 1) == s1;
    assert Run(w, p, s0, 2) == s1.(pc := 2);
    assert Run(w, p, s0, 3) == s3;
  }

  lemma LateRun(w: World)
    ensures Run(w, LATE, Start(map[]), 6).status == Exited(0)
    ensures Run(w, LATE, Start(map[]), 6).trace == []
  {
    var s5 := LATE_STATE.(pc := 7);
    assert Step(w, LATE, LATE_STATE) == s5;
    assert Step(w, LATE, s5) == s5.(status := Exited(0));
    hide Step;
    LateFirst(w);
    assert Run(w, LATE, Start(map[]), 5) == s5;
  }

  lemma LateEmitted(w: World, plan: UnrollPlan)
    requires |plan.suppress_guard| == |plan.induction_increment| == 8
    requires forall i: nat :: i < 8 ==> (plan.suppress_guard[i] <==> i == 4)
    requires plan.induction_increment[2] == Some(0) && plan.induction_increment[3] == Some(2)
    requires forall i: nat :: i < 8 && i != 2 && i != 3 ==> plan.induction_increment[i].None?
    ensures UnrolledRun(w, LATE, plan, map[], 6).trace == [Text("x")]
  {
    var p, s0 := LATE, Start(map[]);
    var s1 := s0.(pc := 1, frame := map[0 := 0]);
    var s4 := s1.(pc := 4, frame := map[0 := 2]);
    assert UnrolledStep(w, p, plan, s0) == s1;
    assert UnrolledStep(w, p, plan, s1) == s1.(pc := 2);
    assert UnrolledStep(w, p, plan, s1.(pc := 2)) == s1.(pc := 3);
    assert UnrolledStep(w, p, plan, s1.(pc := 3)) == s4;
    assert UnrolledStep(w, p, plan, s4) == s4.(pc := 5);
    assert [] + [Text("x")] == [Text("x")];
    assert UnrolledStep(w, p, plan, s4.(pc := 5)).trace == [Text("x")];
    hide UnrolledStep;
    assert UnrolledRun(w, p, plan, map[], 0) == s0;
    assert UnrolledRun(w, p, plan, map[], 1) == s1;
    assert UnrolledRun(w, p, plan, map[], 2) == s1.(pc := 2);
    assert UnrolledRun(w, p, plan, map[], 3) == s1.(pc := 3);
    assert UnrolledRun(w, p, plan, map[], 4) == s4;
    assert UnrolledRun(w, p, plan, map[], 5) == s4.(pc := 5);
  }

  /** The plan takes a loop with a guard after all increments; that guard stops the original, and the
      emitted code goes on to print. */
  lemma LateGuardBreaksUnrolling(w: World, loops: set<UnrolledLoop>, plan: UnrollPlan)
    requires UnrollRight(LATE, loops, plan) && forall l: UnrolledLoop :: l in loops <==> IsUnrolledLoop(LATE, l)
    ensures LATE_LOOP in loops && !GuardsNeedless(LATE, LATE_LOOP)
    ensures Obs(Run(w, LATE, Start(map[]), 6)) == ([], Exited(0))
    ensures UnrolledRun(w, LATE, plan, map[], 6).trace == [Text("x")]
  {
    hide UnrollRight;
    hide IsUnrolledLoop;
    forall l: UnrolledLoop
      ensures l in loops <==> l == LATE_LOOP
    {
      LateOnly(l);
    }
    assert loops == {LATE_LOOP};
    hide *;
    LatePlan(plan);
    LateRun(w);
    LateEmitted(w, plan);
    LateEnd();
    ObsIs(Run(w, LATE, Start(map[]), 6));
  }

  lemma LateEnd()
    ensures !GuardsNeedless(LATE, LATE_LOOP)
  {
    LateCounts();
    hide Units;
    hide Guards;
    assert IsGuard(LATE, LATE_LOOP, 4);
  }
}
