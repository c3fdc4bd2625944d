/** Why a closed demand is not enough for 32-bit instructions: a right shift whose demanded bits come from the
    upper half of its operand. */
module NarrowingCounterexample {
  import opened Words
  import opened Ir
  import opened Semantics
  import opened Execution
  import opened Blocks
  import opened Ssa
  import opened SsaNaming
  import opened SsaBuild
  import opened KnownBitsFacts
  import opened KnownBitsSweep
  import opened DemandedBits
  import opened DemandExact
  import opened Narrowing

  const LOWER: u64 := 0xFFFF_FFFF
  const UPPER_BIT: u64 := 0x1_0000_0000
  const SHIFTED_BIT: u64 := 0x1000_0000

  /** The lower half of a shifted slot is printed. */
  const SHIFT := RuntimeProgram(3, [
    BinOp(1, ShrUnsigned, Slot(0), Imm(4)),
    BinOp(2, BitAnd, Slot(1), Imm(LOWER)),
    PrintInt(Slot(2), false, 64),
    Exit(Imm(0))
  ])

  const SHIFT_BLOCKS := BlockGraph([0], [0, 0, 0, 0], [[]])
  const SHIFT_NAMES := Naming(
    [SSAValue(0, Entry), SSAValue(1, Entry), SSAValue(2, Entry), SSAValue(1, Instr(0)), SSAValue(2, Instr(1))],
    map[(0, 1) := 3, (1, 2) := 4], map[], [[0, 1, 2]], [[0, 3, 4]])
  const SHIFT_ROWS: seq<Row> := [[0, 1, 2], [0, 3, 2], [0, 3, 4], [0, 3, 4]]
  const NO_PREDS: seq<seq<nat>> := [[]]

  /** All of slots 0 and 2, and the lower half of the shifted value. */
  const SHIFT_DEMAND: Demand := [MAX, 0, 0, LOWER, MAX]

  // ----- the names -----

  lemma ShiftCode(i: nat)
    requires i < 4
    ensures SHIFT.instrs[i] == match i
      case 0 => BinOp(1, ShrUnsigned, Slot(0), Imm(4))
      case 1 => BinOp(2, BitAnd, Slot(1), Imm(LOWER))
      case 2 => PrintInt(Slot(2), false, 64)
      case _ => Exit(Imm(0))
  {}

  lemma OneLeader(i: nat)
    ensures IsLeader(SHIFT, i) <==> i == 0
  {
    forall k: nat | k < 4
      ensures TargetOf(SHIFT.instrs[k]).None?
    {
      ShiftCode(k);
    }
    if 0 < i < 4 {
      ShiftCode(i - 1);
    }
  }

  lemma ShiftValid()
    ensures SHIFT_BLOCKS.Valid(SHIFT)
  {
    forall i: nat
      ensures IsLeader(SHIFT, i) <==> i == 0
    {
      OneLeader(i);
    }
    forall c: nat
      ensures !Edge(SHIFT, [0], 0, c)
    {
      ShiftCode(3);
      hide IsLeader;
    }
  }

  lemma ShiftWrites(i: nat, x: nat)
    ensures WritesSlot(SHIFT, i, x) <==> (i == 0 && x == 1) || (i == 1 && x == 2)
  {
    if i < 4 {
      ShiftCode(i);
    }
  }

  lemma ShiftNamed()
    ensures WellNamed(SHIFT, SHIFT_BLOCKS, SHIFT_NAMES) && DefsTotal(SHIFT, SHIFT_NAMES.defs)
  {
    forall i: nat, x: nat
      ensures WritesSlot(SHIFT, i, x) <==> (i == 0 && x == 1) || (i == 1 && x == 2)
    {
      ShiftWrites(i, x);
    }
    hide WritesSlot;
  }

  /** The names just before each instruction, and after the last one. */
  lemma ShiftRow(i: nat)
    requires i <= 4 && DefsTotal(SHIFT, SHIFT_NAMES.defs)
    ensures RowAt(SHIFT, SHIFT_NAMES.defs, [0, 1, 2], 0, i) == if i == 4 then [0, 3, 4] else SHIFT_ROWS[i]
  {
    if i > 0 {
      var k: nat := i - 1;
      ShiftRow(k);
      forall x: nat
        ensures WritesSlot(SHIFT, k, x) <==> (k == 0 && x == 1) || (k == 1 && x == 2)
      {
        ShiftWrites(k, x);
      }
      hide WritesSlot;
    }
  }

  lemma ShiftStable()
    ensures Stable(SHIFT, SHIFT_BLOCKS, NO_PREDS, SHIFT_NAMES) && DefsTotal(SHIFT, SHIFT_NAMES.defs)
    ensures NamesRecorded(SHIFT, SHIFT_BLOCKS, SHIFT_NAMES, SHIFT_ROWS)
  {
    ShiftValid();
    ShiftNamed();
    hide BlockGraph.Valid;
    hide WellNamed;
    hide DefsTotal;
    forall x: nat | x < 3
      ensures Candidates(SHIFT_NAMES.outs, NO_PREDS, 0, x) == {x}
    {}
    ShiftRow(4);
    forall i: nat | i < 4
      ensures SHIFT_ROWS[i] == NameAt(SHIFT, SHIFT_BLOCKS, SHIFT_NAMES, i)
    {
      ShiftRow(i);
    }
    hide RowAt;
    assert StableBlock(SHIFT, SHIFT_BLOCKS, NO_PREDS, SHIFT_NAMES, 0);
  }

  // ----- the demand -----

  lemma ShiftClosed()
    ensures Closed(SHIFT, SHIFT_NAMES, NO_PREDS, [], SHIFT_ROWS, SHIFT_DEMAND)
  {
    forall i: nat | i < 4
      ensures InstrClosed(SHIFT, SHIFT_NAMES, SHIFT_ROWS, SHIFT_DEMAND, i)
    {
      ShiftInstrClosed(i);
    }
  }

  lemma InAll(a: u64)
    ensures BitsIn(a, MAX)
  {
    forall i: nat | Bit(a, i)
      ensures Bit(MAX, i)
    {
      Beyond(a, i);
      Pow2Word();
      BitOfMask(64, i);
    }
  }

  lemma DemandsOfBinops(output: u64)
    ensures OfInstr(BinOp(1, ShrUnsigned, Slot(0), Imm(4)), output) == [(0, ShiftLeft(output, 4))]
    ensures OfInstr(BinOp(2, BitAnd, Slot(1), Imm(LOWER)), output) == [(1, And(output, LOWER))]
  {
    hide ShiftLeft;
    hide And;
  }

  lemma OfOneSlot(x: nat)
    ensures OfSlots([x]) == [(x, MAX)] && OfSlots([]) == []
  {
    assert [x][1..] == [];
  }

  lemma OneOperand(o: RuntimeOperand)
    ensures AllOperandSlots([o]) == if o.Slot? then [o.slot] else []
  {
    assert [o][1..] == [];
    assert AllOperandSlots([]) == [];
  }

  lemma ReadsOfEnd()
    ensures ReadSlots(PrintInt(Slot(2), false, 64)) == [2] && ReadSlots(Exit(Imm(0))) == []
  {
    OneOperand(Slot(2));
    OneOperand(Imm(0));
    hide AllOperandSlots;
  }

  lemma DemandsOfEnd(output: u64)
    ensures OfInstr(PrintInt(Slot(2), false, 64), output) == [(2, MAX)]
    ensures OfInstr(Exit(Imm(0)), output) == []
  {
    hide OfSlots;
    hide ReadSlots;
    ReadsOfEnd();
    OfOneSlot(2);
  }

  lemma ShiftDemands(i: nat, output: u64)
    requires i < 4
    ensures OfInstr(SHIFT.instrs[i], output) == match i
      case 0 => [(0, ShiftLeft(output, 4))]
      case 1 => [(1, And(output, LOWER))]
      case 2 => [(2, MAX)]
      case _ => []
  {
    hide ShiftLeft;
    hide And;
    hide OfInstr;
    ShiftCode(i);
    DemandsOfBinops(output);
    DemandsOfEnd(output);
  }

  lemma ShiftInstrClosed(i: nat)
    requires i < 4
    ensures InstrClosed(SHIFT, SHIFT_NAMES, SHIFT_ROWS, SHIFT_DEMAND, i)
  {
    hide BitsIn;
    hide ShiftLeft;
    hide OutputDemand;
    hide And;
    hide OfInstr;
    hide WriteSlots;
    var output := OutputDemand(SHIFT_DEMAND, SHIFT_NAMES.defs, i, WriteSlots(SHIFT.instrs[i]));
    ShiftDemands(i, output);
    InAll(MAX);
    InAll(ShiftLeft(output, 4));
    InLower(output);
  }

  lemma InLower(output: u64)
    ensures BitsIn(And(output, LOWER), LOWER)
  {
    forall i: nat | Bit(And(output, LOWER), i)
      ensures Bit(LOWER, i)
    {
      Words.BitAnd(output, LOWER, i);
    }
  }

  // ----- two runs -----

  lemma ShiftDown()
    ensures Down(UPPER_BIT, 4) == SHIFTED_BIT && Down(0, 4) == 0
  {
    DownLowDivide(UPPER_BIT, 4);
  }

  lemma LowerKept(a: u64)
    requires a < HALF
    ensures And(a, LOWER) == a
  {
    Pow2Word();
    AndAllOnes(a, 32, HALF);
  }

  /** From the second instruction to the end, with the shifted value in slot 1. */
  lemma ShiftEnds(w: World, f: Frame, a: u64)
    requires a < HALF
    ensures var s := State(1, f[1 := a], [], [], Running);
      var t := State(2, f[1 := a][2 := a], [], [], Running);
      var u := State(3, f[1 := a][2 := a], [], [Printed(a, false, 64)], Running);
      Step(w, SHIFT, s) == t && Step(w, SHIFT, t) == u && Step(w, SHIFT, u) == u.(status := Exited(0))
  {
    LowerKept(a);
    ShiftCode(1);
    ShiftCode(2);
    ShiftCode(3);
    hide And;
    assert [] + [Printed(a, false, 64)] == [Printed(a, false, 64)];
    StepPlain(w, SHIFT, State(1, f[1 := a], [], [], Running));
    StepPlain(w, SHIFT, State(2, f[1 := a][2 := a], [], [], Running));
  }

  lemma ShiftRun(w: World, f: Frame)
    requires Get(f, 0) == UPPER_BIT
    ensures Obs(Run(w, SHIFT, Start(f), 4)) == ([Printed(SHIFTED_BIT, false, 64)], Exited(0))
  {
    ShiftDown();
    ShiftCode(0);
    hide Down;
    StepPlain(w, SHIFT, Start(f));
    ShiftEnds(w, f, SHIFTED_BIT);
    assert Step(w, SHIFT, Start(f)) == State(1, f[1 := SHIFTED_BIT], [], [], Running);
    hide Step;
    assert Run(w, SHIFT, Start(f), 0) == Start(f);
    assert Run(w, SHIFT, Start(f), 2) == Step(w, SHIFT, Run(w, SHIFT, Start(f), 1));
    assert Run(w, SHIFT, Start(f), 4) == Step(w, SHIFT, Run(w, SHIFT, Start(f), 3));
  }

  /** Narrowed or not, the second instruction keeps a zero. */
  lemma NarrowEnds(w: World, demand: Demand, f: Frame)
    ensures var s := State(1, f[1 := 0], [], [], Running);
      var t := State(2, f[1 := 0][2 := 0], [], [], Running);
      var u := State(3, f[1 := 0][2 := 0], [], [Printed(0, false, 64)], Running);
      NarrowStep(w, SHIFT, SHIFT_NAMES, demand, s) == t && NarrowStep(w, SHIFT, SHIFT_NAMES, demand, t) == u &&
      NarrowStep(w, SHIFT, SHIFT_NAMES, demand, u) == u.(status := Exited(0))
  {
    ShiftEnds(w, f, 0);
    ShiftCode(1);
    ShiftCode(2);
    ShiftCode(3);
    LowerKept(0);
    hide And;
    hide Step;
    hide Output;
  }

  lemma NarrowedFirst(w: World, demand: Demand, f: Frame)
    requires Get(f, 0) == UPPER_BIT && |demand| == 5 && demand[3] < HALF
    ensures NarrowStep(w, SHIFT, SHIFT_NAMES, demand, Start(f)) == State(1, f[1 := 0], [], [], Running)
  {
    ShiftDown();
    ShiftCode(0);
    OnlyOutput(demand);
    hide Output;
    hide Down;
    hide Step;
  }

  lemma NextNarrow(w: World, demand: Demand, f: Frame, k: nat)
    ensures NarrowRun(w, SHIFT, SHIFT_NAMES, demand, f, k + 1)
      == NarrowStep(w, SHIFT, SHIFT_NAMES, demand, NarrowRun(w, SHIFT, SHIFT_NAMES, demand, f, k))
    ensures NarrowRun(w, SHIFT, SHIFT_NAMES, demand, f, 0) == Start(f)
  {
    hide NarrowStep;
  }

  lemma NarrowedRun(w: World, demand: Demand, f: Frame)
    requires Get(f, 0) == UPPER_BIT && |demand| == 5 && demand[3] < HALF
    ensures Obs(NarrowRun(w, SHIFT, SHIFT_NAMES, demand, f, 4)) == ([Printed(0, false, 64)], Exited(0))
  {
    hide NarrowStep;
    hide NarrowRun;
    NarrowedFirst(w, demand, f);
    NarrowEnds(w, demand, f);
    NextNarrow(w, demand, f, 0);
    NextNarrow(w, demand, f, 1);
    NextNarrow(w, demand, f, 2);
    NextNarrow(w, demand, f, 3);
  }

  lemma OnlyOutput(demand: Demand)
    requires |demand| == 5
    ensures Output(SHIFT, SHIFT_NAMES, demand, 0) == demand[3]
  {
    ShiftCode(0);
    var written: seq<nat> := [1];
    assert WriteSlots(SHIFT.instrs[0]) == written && written[1..] == [];
    assert OutputDemand(demand, SHIFT_NAMES.defs, 0, []) == 0;
    assert Or64(demand[3], 0) == demand[3];
    assert OutputDemand(demand, SHIFT_NAMES.defs, 0, written) == demand[3];
  }

  /** Whatever number of sweeps the demand comes from, the shift is narrowed, and the program prints 0 instead
      of the bit that the shift brings down from the upper half. */
  lemma ShiftBreaksNarrowing(w: World, demand: Demand, f: Frame)
    requires BelowClosed(SHIFT, SHIFT_NAMES, NO_PREDS, [], SHIFT_ROWS, demand) && Get(f, 0) == UPPER_BIT
    ensures Stable(SHIFT, SHIFT_BLOCKS, NO_PREDS, SHIFT_NAMES) && DefsTotal(SHIFT, SHIFT_NAMES.defs)
    ensures NamesRecorded(SHIFT, SHIFT_BLOCKS, SHIFT_NAMES, SHIFT_ROWS)
    ensures Obs(Run(w, SHIFT, Start(f), 4)) == ([Printed(SHIFTED_BIT, false, 64)], Exited(0))
    ensures Obs(NarrowRun(w, SHIFT, SHIFT_NAMES, demand, f, 4)) == ([Printed(0, false, 64)], Exited(0))
  {
    ShiftStable();
    ShiftClosed();
    assert Grows(demand, SHIFT_DEMAND);
    assert BitsIn(demand[3], LOWER);
    BitsBelow(demand[3], LOWER);
    hide *;
    ShiftRun(w, f);
    NarrowedRun(w, demand, f);
  }
}
