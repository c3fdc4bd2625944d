/** Preconditions and limits that are needed: programs on which a pass or a plan changes behaviour without them. */
module Counterexamples {
  import opened Words
  import opened Ir
  import opened Semantics
  import opened Fusion
  import opened FusionCorrectness
  import opened FusionRuns
  import opened CountedLoops
  import opened CountedLoopCorrectness
  import opened Execution
  import opened Blocks
  import opened Permutations
  import opened Profile
  import opened Layout
  import opened LayoutCorrectness

  // ----- a last block that falls off the end -----

  /** The last block prints and ends; the profile moves it before the block that exits. */
  const TAIL := RuntimeProgram(1, [JumpIfZero(0, 2), Exit(Imm(1)), PrintInt(Imm(7), false, 64)])
  const TAIL_AFTER :=
    RuntimeProgram(1, [JumpIfCmpFalse(Eq, Slot(0), Imm(0), 2), PrintInt(Imm(7), false, 64), Exit(Imm(1))])
  const TAIL_BLOCKS := BlockGraph([0, 1, 2], [0, 1, 2], [[1, 2], [], []])
  const TAIL_PROFILE :=
    FunctionProfile("tail",
    map[0 := BlockProfile(1, map[2 := 9]), 1 := BlockProfile(1, map[]), 2 := BlockProfile(9, map[])])
  const TAIL_ORDER: seq<nat> := [0, 2, 1]
  const TAIL_STARTS: map<nat, nat> := map[0 := 0, 2 := 1, 1 := 2]

  lemma TailCuts()
    ensures TAIL_BLOCKS.Cuts(TAIL)
  {
    assert IsTarget(TAIL, 2, 3) by {
      assert TargetOf(TAIL.instrs[0]) == Some(2);
    }
    assert IsLeader(TAIL, 1) && IsLeader(TAIL, 2);
  }

  lemma TailEdge(b: nat, c: nat)
    requires b < 3
    ensures Edge(TAIL, TAIL_BLOCKS.starts, b, c) <==> b == 0 && (c == 1 || c == 2)
  {
    var starts := TAIL_BLOCKS.starts;
    assert BlockEnd(starts, 3, b) == b + 1;
    if c < 3 {
      assert starts[c] == c;
    }
  }

  lemma TailValid()
    ensures TAIL_BLOCKS.Valid(TAIL)
  {
    TailCuts();
    var g := TAIL_BLOCKS;
    hide Edge;
    forall b, c: nat | 0 <= b < 3
      ensures c in g.successors[b] <==> Edge(TAIL, g.starts, b, c)
    {
      TailEdge(b, c);
      assert c in [1, 2] <==> c == 1 || c == 2;
    }
    forall b | 0 <= b < 3
      ensures Increasing(g.successors[b])
    {}
  }

  lemma TailLaidOut()
    ensures LaidOut(TAIL, TAIL_BLOCKS, TAIL_ORDER, TAIL_STARTS, TAIL_AFTER)
  {
    var p, g, order, starts, q := TAIL, TAIL_BLOCKS, TAIL_ORDER, TAIL_STARTS, TAIL_AFTER;
    TailCuts();
    TailCode(0);
    TailCode(1);
    TailCode(2);
    hide LayBlock;
    assert Offset(p, g, order, 0) == 0 && Offset(p, g, order, 1) == 1;
    assert Offset(p, g, order, 2) == 2;
    assert Offset(p, g, order, 3) == 3;
    forall k | 0 <= k < 3
      ensures PlacedAt(p, g, order, starts, k) && PlacedBlock(p, g, order, starts, 3, q.instrs, k)
    {
      assert q.instrs[k..k + 1] == [q.instrs[k]];
    }
  }

  lemma TailCode(k: nat)
    requires k < 3 && TAIL_BLOCKS.Cuts(TAIL)
    ensures |LayBlock(TAIL, TAIL_BLOCKS, TAIL_ORDER, k)| == 1
    ensures ResolveAll(LayBlock(TAIL, TAIL_BLOCKS, TAIL_ORDER, k), TAIL_STARTS, 3) == [TAIL_AFTER.instrs[k]]
  {
    TailLaid(k);
    hide LayBlock;
    TailTerminator(k);
    hide Terminator;
  }

  lemma TailLaid(k: nat)
    requires k < 3 && TAIL_BLOCKS.Cuts(TAIL)
    ensures var b := TAIL_ORDER[k];
      LayBlock(TAIL, TAIL_BLOCKS, TAIL_ORDER, k)
        == [Terminator(TAIL_BLOCKS, TAIL.instrs[b], b, NextInOrder(TAIL_ORDER, k))]
  {
    hide Terminator;
    var b := TAIL_ORDER[k];
    assert TAIL_BLOCKS.starts[b] == b && TAIL_BLOCKS.End(b) == b + 1;
    assert Repair(TAIL_BLOCKS, TAIL.instrs[b], b, NextInOrder(TAIL_ORDER, k)) == [];
    assert TAIL.instrs[b..b] == [];
  }

  lemma TailTerminator(k: nat)
    requires k < 3
    ensures var b := TAIL_ORDER[k];
      ResolveAll([Terminator(TAIL_BLOCKS, TAIL.instrs[b], b, NextInOrder(TAIL_ORDER, k))], TAIL_STARTS, 3)
        == [TAIL_AFTER.instrs[k]]
  {}

  /** When the last block neither stays last nor ends in an unconditional transfer, layout is not safe. */
  lemma MovedEndBreaksLayout()
    ensures TAIL_BLOCKS.Valid(TAIL) && ProfileMatches(TAIL_BLOCKS, TAIL_PROFILE)
      && GreedyTrace(TAIL_BLOCKS, TAIL_PROFILE, TAIL_ORDER)
    ensures LaidOut(TAIL, TAIL_BLOCKS, TAIL_ORDER, TAIL_STARTS, TAIL_AFTER)
    ensures SmallEnough(TAIL) && !HasCall(TAIL) && !EndStaysLast(TAIL, TAIL_BLOCKS, TAIL_ORDER)
    ensures !SameBehaviour(TAIL, TAIL_AFTER)
  {
    hide *;
    TailValid();
    TailLaidOut();
    TailTrace();
    TailShape();
    TailDiffers();
  }

  lemma TailShape()
    ensures ProfileMatches(TAIL_BLOCKS, TAIL_PROFILE)
    ensures SmallEnough(TAIL) && !HasCall(TAIL) && !EndStaysLast(TAIL, TAIL_BLOCKS, TAIL_ORDER)
  {
    assert |TAIL_PROFILE.blocks| == 3;
  }

  lemma TailDiffers()
    ensures !SameBehaviour(TAIL, TAIL_AFTER)
  {
    var w: World, f: Frame := imap[], map[];
    var o := ([Printed(7, false, 64)], Ended);
    TailRun(w, f);
    hide Run;
    forall m: nat
      ensures Obs(Run(w, TAIL_AFTER, Start(f), m)) != o
    {
      TailAfterRun(w, f, m);
    }
    assert !Matched(w, TAIL_AFTER, f, o);
    assert !Simulates(TAIL, TAIL_AFTER);
  }

  lemma TailRests()
    ensures Nodes(3) - Elements(TAIL_ORDER[..1]) == {1, 2}
    ensures Nodes(3) - Elements(TAIL_ORDER[..2]) == {1}
  {
    var one, two := TAIL_ORDER[..1], TAIL_ORDER[..2];
    assert one == [0] && two == [0, 2];
    var nodes := Nodes(3);
    hide Nodes;
    forall k: nat
      ensures k in nodes - Elements(one) <==> k in {1, 2}
      ensures k in nodes - Elements(two) <==> k in {1}
    {
      assert k in nodes <==> k < 3;
    }
  }

  lemma TailTrace()
    ensures GreedyTrace(TAIL_BLOCKS, TAIL_PROFILE, TAIL_ORDER)
  {
    var g, profile, order := TAIL_BLOCKS, TAIL_PROFILE, TAIL_ORDER;
    TailRests();
    hide Nodes;
    hide Elements;
    var rest: set<nat> := {1, 2};
    assert (set c | c in g.successors[0] && c in rest) == rest;
    assert (set c | c in g.successors[2] && c in {1}) == {};
    assert Continues(g, profile, 0, rest, 2);
    assert Continues(g, profile, 2, {1}, 1);
  }

  lemma TailRun(w: World, f: Frame)
    requires f == map[]
    ensures Obs(Run(w, TAIL, Start(f), 3)) == ([Printed(7, false, 64)], Ended)
  {
    var s1 := Start(f).(pc := 2);
    var s2 := s1.(pc := 3, trace := [Printed(7, false, 64)]);
    assert Step(w, TAIL, Start(f)) == s1;
    assert [] + [Printed(7, false, 64)] == [Printed(7, false, 64)];
    assert Step(w, TAIL, s1) == s2;
    assert Step(w, TAIL, s2) == s2.(status := Ended);
    hide Step;
    assert Run(w, TAIL, Start(f), 0) == Start(f);
    assert Run(w, TAIL, Start(f), 1) == s1;
    assert Run(w, TAIL, Start(f), 2) == s2;
  }

  /** The laid-out program never runs past its end: it exits. */
  lemma {:induction false} TailAfterRun(w: World, f: Frame, m: nat)
    ensures var t := Run(w, TAIL_AFTER, Start(f), m);
      t.pc < 3 && t.status != Ended
  {
    if m > 0 {
      TailAfterRun(w, f, m - 1);
      hide Step;
      TailAfterStep(w, Run(w, TAIL_AFTER, Start(f), m - 1));
    }
  }

  lemma TailAfterStep(w: World, s: State)
    requires s.pc < 3 && s.status != Ended
    ensures var t := Step(w, TAIL_AFTER, s);
      t.pc < 3 && t.status != Ended
  {
    hide EvaluateCmp;
    hide Eval;
  }

  // ----- fusion across a return -----

  /** Slot 0 is a temporary of the group at instruction 3, and is printed after the call returns. */
  const CALLED := RuntimeProgram(4, [
    Call(3),
    PrintInt(Slot(0), false, 64),
    Exit(Imm(0)),
    BinOp(0, Mul, Slot(3), Imm(1)),
    BinOp(1, Add, Slot(0), Imm(0)),
    BinOp(2, BitAnd, Slot(1), Imm(LOW32)),
    Return
  ])

  const CALLED_FUSION := U32Affine(Slot(3), 1, 0, 2, None, 3)

  /** The search for later reads does not follow returns, so in a program with calls it lets the backend
      drop a temporary that is read later: the fused program prints 0 instead of 5. */
  lemma ReturnHidesLaterReads(w: World)
    ensures U32Fuses(CALLED, 3, 0, 1, CALLED_FUSION)
    ensures Run(w, CALLED, Start(CALLED_START), 6).trace == [Printed(5, false, 64)]
    ensures FusedRun(w, CALLED, map[3 := Narrow(0, 1, CALLED_FUSION)], CALLED_START, 4).trace == [Printed(0, false, 64)]
  {
    hide *;
    CalledFuses();
    CalledRun(w);
    CalledFusedRun(w);
  }

  lemma CalledFuses()
    ensures U32Fuses(CALLED, 3, 0, 1, CALLED_FUSION)
  {
    assert IsU32Affine(CALLED, 3, 0, 1, CALLED_FUSION) && U32Distinct(0, 1, CALLED_FUSION);
    forall x: nat | x < 2
      ensures !ReadLater(CALLED, 6, x)
    {
      assert CALLED.instrs[6] == Return;
      OnlyReturns(CALLED, 6, x);
      NotReadLater(CALLED, x, {6}, 6);
    }
  }

  lemma OnlyReturns(p: RuntimeProgram, i: nat, x: nat)
    requires i < |p.instrs| && p.instrs[i] == Return
    ensures Searched(p, x, {i}, [])
  {}

  lemma NotReadLater(p: RuntimeProgram, x: nat, visited: set<nat>, i: nat)
    requires Searched(p, x, visited, []) && i in visited && i < |p.instrs|
    ensures !ReadLater(p, i, x)
  {
    hide Searched;
    forall n: nat
      ensures !ReadWithin(p, i, x, n)
    {
      NothingRead(p, x, visited, i, n);
    }
  }

  const CALLED_START: Frame := map[3 := 5]
  const CALLED_END: Frame := map[3 := 5, 0 := 5, 1 := 5, 2 := 5]
  const CALLED_FUSED_END: Frame := map[3 := 5, 2 := 5]

  /** From the call to the group, and from the return to the output. */
  lemma CalledEnds(w: World, f: Frame)
    ensures Step(w, CALLED, Start(f)) == State(3, f, [1], [], Running)
    ensures Step(w, CALLED, State(6, f, [1], [], Running)) == State(1, f, [], [], Running)
    ensures Step(w, CALLED, State(1, f, [], [], Running)) == State(2, f, [], [Printed(Get(f, 0), false, 64)], Running)
  {
    hide Exec;
    hide Get;
    assert CALLED.instrs[0] == Call(3) && CALLED.instrs[6] == Return;
    CalledPrints(w, f);
  }

  lemma CalledPrints(w: World, f: Frame)
    ensures Step(w, CALLED, State(1, f, [], [], Running)) == State(2, f, [], [Printed(Get(f, 0), false, 64)], Running)
  {
    hide Get;
    var s := State(1, f, [], [], Running);
    assert CALLED.instrs[1] == PrintInt(Slot(0), false, 64);
    StepPlain(w, CALLED, s);
    hide Step;
    assert [] + [Printed(Get(f, 0), false, 64)] == [Printed(Get(f, 0), false, 64)];
  }

  lemma CalledMultiply(w: World)
    ensures Step(w, CALLED, State(3, CALLED_START, [1], [], Running)) == State(4, map[3 := 5, 0 := 5], [1], [], Running)
  {
    assert CALLED.instrs[3] == BinOp(0, Mul, Slot(3), Imm(1));
    assert CALLED_START[0 := 5] == map[3 := 5, 0 := 5];
  }

  lemma CalledAdd(w: World)
    ensures Step(w, CALLED, State(4, map[3 := 5, 0 := 5], [1], [], Running))
      == State(5, map[3 := 5, 0 := 5, 1 := 5], [1], [], Running)
  {
    assert CALLED.instrs[4] == BinOp(1, Add, Slot(0), Imm(0));
    var f: Frame := map[3 := 5, 0 := 5];
    assert f[1 := 5] == map[3 := 5, 0 := 5, 1 := 5];
  }

  lemma CalledMask(w: World)
    ensures Step(w, CALLED, State(5, map[3 := 5, 0 := 5, 1 := 5], [1], [], Running))
      == State(6, CALLED_END, [1], [], Running)
  {
    assert CALLED.instrs[5] == BinOp(2, BitAnd, Slot(1), Imm(LOW32));
    AndLow32(5);
    hide And;
    var f: Frame := map[3 := 5, 0 := 5, 1 := 5];
    assert f[2 := 5] == CALLED_END;
  }

  lemma CalledRun(w: World)
    ensures Run(w, CALLED, Start(CALLED_START), 6).trace == [Printed(5, false, 64)]
  {
    CalledEnds(w, CALLED_START);
    CalledMultiply(w);
    CalledAdd(w);
    CalledMask(w);
    CalledEnds(w, CALLED_END);
    assert Get(CALLED_END, 0) == 5;
    hide Step;
    assert Run(w, CALLED, Start(CALLED_START), 1) == State(3, CALLED_START, [1], [], Running);
    assert Run(w, CALLED, Start(CALLED_START), 3).pc == 5;
    assert Run(w, CALLED, Start(CALLED_START), 5).pc == 1;
  }

  lemma CalledFusedRun(w: World)
    ensures FusedRun(w, CALLED, map[3 := Narrow(0, 1, CALLED_FUSION)], CALLED_START, 4).trace == [Printed(0, false, 64)]
  {
    var plan := map[3 := Narrow(0, 1, CALLED_FUSION)];
    CalledEnds(w, CALLED_START);
    CalledEnds(w, CALLED_FUSED_END);
    assert Get(CALLED_FUSED_END, 0) == 0;
    assert FusedFrame(plan[3], CALLED_START) == CALLED_FUSED_END;
    hide Step;
    hide FusedFrame;
    assert FusedRun(w, CALLED, plan, CALLED_START, 1) == State(3, CALLED_START, [1], [], Running);
    assert FusedRun(w, CALLED, plan, CALLED_START, 2) == State(6, CALLED_FUSED_END, [1], [], Running);
    assert FusedRun(w, CALLED, plan, CALLED_START, 3) == State(1, CALLED_FUSED_END, [], [], Running);
  }

  // ----- selection without a mask slot of its own -----

  /** The mask and the coefficient share slot 1. */
  const SHARED := RuntimeProgram(4, [
    Cmp(0, LtUnsigned, Slot(3), Imm(10)),
    BinOp(1, Sub, Imm(0), Slot(0)),
    BinOp(1, BitAnd, Slot(1), Imm(0)),
    BinOpInPlace(1, BitXor, Imm(1)),
    BinOpInPlace(2, Mul, Slot(1)),
    BinOp(1, BitAnd, Slot(1), Imm(1)),
    BinOpInPlace(1, BitXor, Imm(0)),
    BinOpInPlace(2, Add, Slot(1)),
    PrintInt(Slot(2), false, 64),
    Exit(Imm(0))
  ])

  const SHARED_PARTS := SelectParts(0, 1, 1, 0, 1)
  const SHARED_FUSION := AffineSelect(LtUnsigned, Slot(3), Imm(10), 2, 1, 1, 1, 0, MAX, 8)

  const SHARED_PLAN: map<nat, Fused> := map[0 := Choose(SHARED_PARTS, SHARED_FUSION)]

  /** The backend fuses this group although its mask is overwritten before the summand is computed; when
      the comparison is false, the program prints one number and its fused form another. */
  lemma SharedMaskBreaksSelection(w: World, f: Frame) returns (printed: u64)
    requires Get(f, 3) >= 10
    ensures SelectFuses(SHARED, 0, SHARED_PARTS, SHARED_FUSION)
    ensures Obs(Run(w, SHARED, Start(f), 10)) == ([Printed(printed, false, 64)], Exited(0))
    ensures Obs(FusedRun(w, SHARED, SHARED_PLAN, f, 3)) == ([Printed(Get(f, 2), false, 64)], Exited(0))
    ensures printed != Get(f, 2)
  {
    hide *;
    SharedFuses();
    SharedPattern();
    SharedChoice(f);
    SelectExact(SHARED, 0, SHARED_PARTS, SHARED_FUSION, f);
    SharedValue(f);
    printed := Get(Straight(SHARED, 0, f, 8), 2);
    SharedRun(w, f);
    SharedFusedRun(w, f);
  }

  /** From the output of slot 2 to the end. */
  lemma SharedEnds(w: World, s: State)
    requires s.status == Running && s.pc == 8 && s.trace == []
    ensures var t := Step(w, SHARED, s);
      t == s.(pc := 9, trace := [Printed(Get(s.frame, 2), false, 64)]) && Step(w, SHARED, t) == t.(status := Exited(0))
  {
    hide Get;
    assert SHARED.instrs[8] == PrintInt(Slot(2), false, 64) && SHARED.instrs[9] == Exit(Imm(0));
    StepPlain(w, SHARED, s);
    assert [] + [Printed(Get(s.frame, 2), false, 64)] == [Printed(Get(s.frame, 2), false, 64)];
  }

  lemma SharedRun(w: World, f: Frame)
    requires IsStraight(SHARED, 0, 8)
    ensures Obs(Run(w, SHARED, Start(f), 10))
      == ([Printed(Get(Straight(SHARED, 0, f, 8), 2), false, 64)], Exited(0))
  {
    StraightRun(w, SHARED, Start(f), 8);
    hide Straight;
    hide IsStraight;
    var s := Run(w, SHARED, Start(f), 8);
    SharedEnds(w, s);
    hide Step;
    assert Run(w, SHARED, Start(f), 9) == Step(w, SHARED, s);
    assert Run(w, SHARED, Start(f), 10) == Step(w, SHARED, Run(w, SHARED, Start(f), 9));
  }

  lemma SharedFusedRun(w: World, f: Frame)
    ensures Obs(FusedRun(w, SHARED, SHARED_PLAN, f, 3))
      == ([Printed(Get(SelectFrame(SHARED_FUSION, f), 2), false, 64)], Exited(0))
  {
    hide SelectFrame;
    var s := State(8, SelectFrame(SHARED_FUSION, f), [], [], Running);
    assert FusedStep(w, SHARED, SHARED_PLAN, Start(f)) == s;
    SharedEnds(w, s);
    hide Step;
    assert FusedRun(w, SHARED, SHARED_PLAN, f, 0) == Start(f);
    assert FusedRun(w, SHARED, SHARED_PLAN, f, 1) == s;
    assert FusedRun(w, SHARED, SHARED_PLAN, f, 2) == Step(w, SHARED, s);
    assert FusedRun(w, SHARED, SHARED_PLAN, f, 3) == Step(w, SHARED, Step(w, SHARED, s));
  }

  lemma SharedValue(f: Frame)
    requires Get(f, 3) >= 10
    ensures var (mul, add) := Chosen(SHARED_FUSION, f);
      Get(SelectFrame(SHARED_FUSION, f), 2) == ((Get(f, 2) * mul) % WORD + add) % WORD == Get(f, 2)
  {
    SharedChosen(f);
    hide Chosen;
    hide And;
    hide Get;
    AndMax(Get(f, 2));
    TimesOne(Get(f, 2));
    SelectedIs(f);
    hide SelectFrame;
  }

  lemma SharedChosen(f: Frame)
    requires Get(f, 3) >= 10
    ensures Chosen(SHARED_FUSION, f) == (1, 0)
  {
    hide Get;
  }

  lemma TimesOne(a: u64)
    ensures ((a * 1) % WORD + 0) % WORD == a
  {}

  lemma SelectedIs(f: Frame)
    requires Chosen(SHARED_FUSION, f) == (1, 0)
    ensures Get(SelectFrame(SHARED_FUSION, f), 2) == And(((Get(f, 2) * 1) % WORD + 0) % WORD, MAX)
  {
    hide Chosen;
    hide And;
  }

  lemma SharedChoice(f: Frame)
    requires Get(f, 3) >= 10
    ensures !MaskSurvives(SHARED_PARTS, SHARED_FUSION, f)
  {
    assert And(1, 1) == 1 && And(0, 1) == 0;
    hide And;
  }

  lemma SharedPattern()
    ensures IsAffineSelect(SHARED, 0, SHARED_PARTS, SHARED_FUSION)
    ensures SHARED_FUSION.state_slot !in {SHARED_PARTS.cond, SHARED_PARTS.mask, SHARED_PARTS.coefficient}
    ensures SHARED_FUSION.state_slot == 2 && SHARED_FUSION.consumed == 8
  {
    assert Xor64(1, 0) == 1 && Xor64(0, 1) == 1;
    hide Xor64;
  }

  lemma SharedFuses()
    ensures SelectFuses(SHARED, 0, SHARED_PARTS, SHARED_FUSION) && ReadLater(SHARED, 8, 2)
  {
    SharedPattern();
    hide IsAffineSelect;
    assert SHARED.instrs[8] == PrintInt(Slot(2), false, 64) && SHARED.instrs[9] == Exit(Imm(0));
    assert Slot(2) in Operands(SHARED.instrs[8]);
    ReadHere(SHARED, 8, 2);
    forall x: nat | x < 2
      ensures !ReadLater(SHARED, 8, x)
    {
      PrintThenExit(SHARED, 8, 2, x);
      NotReadLater(SHARED, x, {8, 9}, 8);
    }
  }

  lemma PrintThenExit(p: RuntimeProgram, i: nat, y: nat, x: nat)
    requires i + 1 < |p.instrs| && p.instrs[i] == PrintInt(Slot(y), false, 64) && p.instrs[i + 1] == Exit(Imm(0))
      && x != y
    ensures Searched(p, x, {i, i + 1}, [])
  {}

  // ----- a jump into the body of a counted loop -----

  /** Instruction 0 can jump past the guard into the loop from 2 to 5. */
  const SIDE := RuntimeProgram(2, [
    JumpIfZero(1, 4),
    Mov(0, Imm(0)),
    JumpIfCmpFalse(LtUnsigned, Slot(0), Imm(2), 6),
    BinOpInPlace(0, Add, Imm(1)),
    PrintConst("x"),
    Jump(2),
    Exit(Imm(0))
  ])

  const SIDE_LOOP := CountedLoop(2, 5, 0, 0, 2)
  const SIDE_START: Frame := map[0 := 5]

  /** The plan takes the loop because nothing else jumps to its header; entered in the middle, the original
      prints once and leaves, and the counting code prints again. */
  lemma SideEntryBreaksCounting(w: World, loops: set<CountedLoop>, plan: CountedPlan)
    requires PlanRight(SIDE, loops, plan) && SIDE_LOOP in loops
    ensures IsCountedLoop(SIDE, SIDE_LOOP) && !SideEntryFree(SIDE, SIDE_LOOP)
    ensures Run(w, SIDE, Start(SIDE_START), 5) == State(6, SIDE_START, [], [Text("x")], Exited(0))
    ensures CountedRun(w, SIDE, plan, SIDE_START, 6).trace == [Text("x"), Text("x")]
  {
    hide *;
    SideShape(loops, plan);
    SideRun(w);
    SideCounted(w, loops, plan);
  }

  lemma SideShape(loops: set<CountedLoop>, plan: CountedPlan)
    requires PlanRight(SIDE, loops, plan) && SIDE_LOOP in loops
    ensures IsCountedLoop(SIDE, SIDE_LOOP) && !SideEntryFree(SIDE, SIDE_LOOP)
  {
    hide IsCountedLoop;
    assert TargetOf(SIDE.instrs[0]) == Some(4);
  }

  lemma SideEnds(w: World, f: Frame, t: Trace)
    ensures f == SIDE_START ==> Step(w, SIDE, State(0, f, [], t, Running)) == State(4, f, [], t, Running)
    ensures Step(w, SIDE, State(4, f, [], t, Running)) == State(5, f, [], t + [Text("x")], Running)
    ensures Step(w, SIDE, State(5, f, [], t, Running)) == State(2, f, [], t, Running)
    ensures Step(w, SIDE, State(6, f, [], t, Running)) == State(6, f, [], t, Exited(0))
  {
    assert SIDE.instrs[0] == JumpIfZero(1, 4) && SIDE.instrs[4] == PrintConst("x");
    assert SIDE.instrs[5] == Jump(2) && SIDE.instrs[6] == Exit(Imm(0));
  }

  lemma SideRun(w: World)
    ensures Run(w, SIDE, Start(SIDE_START), 5) == State(6, SIDE_START, [], [Text("x")], Exited(0))
  {
    var f := SIDE_START;
    SideEnds(w, f, []);
    assert [] + [Text("x")] == [Text("x")];
    SideEnds(w, f, [Text("x")]);
    assert Step(w, SIDE, State(2, f, [], [Text("x")], Running)) == State(6, f, [], [Text("x")], Running) by {
      assert SIDE.instrs[2] == JumpIfCmpFalse(LtUnsigned, Slot(0), Imm(2), 6);
    }
    hide Step;
    assert Run(w, SIDE, Start(f), 1) == State(4, f, [], [], Running);
    assert Run(w, SIDE, Start(f), 2) == State(5, f, [], [Text("x")], Running);
    assert Run(w, SIDE, Start(f), 3) == State(2, f, [], [Text("x")], Running);
    assert Run(w, SIDE, Start(f), 4) == State(6, f, [], [Text("x")], Running);
  }

  lemma SideOrdinary(w: World, loops: set<CountedLoop>, plan: CountedPlan, s: State)
    requires PlanRight(SIDE, loops, plan) && SIDE_LOOP in loops && s.status == Running
    requires s.pc == 0 || s.pc == 4
    ensures |plan.initializer_count| == |plan.suppress_instr| == |plan.latch| == |SIDE.instrs|
    ensures CountedStep(w, SIDE, plan, s) == Step(w, SIDE, s)
  {
    forall l | l in loops
      ensures s.pc + 1 != l.header && s.pc != l.latch && !Controls(SIDE, l, s.pc)
    {
      hide IsCountedLoop;
      LoopBounds(SIDE, l);
      assert SIDE.instrs[0] == JumpIfZero(1, 4) && SIDE.instrs[1] == Mov(0, Imm(0)) && SIDE.instrs[4] == PrintConst("x")
        && SIDE.instrs[5] == Jump(2);
    }
    hide IsCountedLoop;
    hide Controls;
    hide HasShape;
    PlanSized(SIDE, loops, plan);
    EmitOrdinary(w, SIDE, loops, plan, s);
  }

  lemma SideCounted(w: World, loops: set<CountedLoop>, plan: CountedPlan)
    requires PlanRight(SIDE, loops, plan) && SIDE_LOOP in loops
    ensures |plan.initializer_count| == |plan.suppress_instr| == |plan.latch| == |SIDE.instrs|
    ensures CountedRun(w, SIDE, plan, SIDE_START, 6).trace == [Text("x"), Text("x")]
  {
    var f, h: Frame := SIDE_START, map[0 := 4];
    PlanSized(SIDE, loops, plan);
    SideEnds(w, f, []);
    assert [] + [Text("x")] == [Text("x")];
    SideEnds(w, h, [Text("x")]);
    assert [Text("x")] + [Text("x")] == [Text("x"), Text("x")];
    SideOrdinary(w, loops, plan, Start(f));
    SideOrdinary(w, loops, plan, State(4, f, [], [], Running));
    SideOrdinary(w, loops, plan, State(4, h, [], [Text("x")], Running));
    SideLatch(w, loops, plan, f, h);
    hide CountedStep;
    hide Step;
    hide PlanRight;
    assert CountedRun(w, SIDE, plan, f, 1) == State(4, f, [], [], Running);
    assert CountedRun(w, SIDE, plan, f, 2) == State(5, f, [], [Text("x")], Running);
    assert CountedRun(w, SIDE, plan, f, 3) == State(2, h, [], [Text("x")], Running);
    assert CountedRun(w, SIDE, plan, f, 4) == State(3, h, [], [Text("x")], Running);
    assert CountedRun(w, SIDE, plan, f, 5) == State(4, h, [], [Text("x")], Running);
  }

  lemma SideLatch(w: World, loops: set<CountedLoop>, plan: CountedPlan, f: Frame, h: Frame)
    requires PlanRight(SIDE, loops, plan) && SIDE_LOOP in loops && f == SIDE_START && h == map[0 := 4]
    ensures |plan.initializer_count| == |plan.suppress_instr| == |plan.latch| == |SIDE.instrs|
    ensures CountedStep(w, SIDE, plan, State(5, f, [], [Text("x")], Running)) == State(2, h, [], [Text("x")], Running)
    ensures CountedStep(w, SIDE, plan, State(2, h, [], [Text("x")], Running)) == State(3, h, [], [Text("x")], Running)
    ensures CountedStep(w, SIDE, plan, State(3, h, [], [Text("x")], Running)) == State(4, h, [], [Text("x")], Running)
  {
    hide IsCountedLoop;
    hide Step;
    PlanSized(SIDE, loops, plan);
    AtControl(SIDE, loops, plan, SIDE_LOOP, 5);
    AtControl(SIDE, loops, plan, SIDE_LOOP, 2);
    AtControl(SIDE, loops, plan, SIDE_LOOP, 3);
    assert SIDE.instrs[3] == BinOpInPlace(0, Add, Imm(1));
    hide PlanRight;
    assert f[0 := 4] == h;
  }
}
