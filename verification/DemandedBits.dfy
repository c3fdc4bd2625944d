/** `compute_demanded_bits`: sweeps that pass demand from results to operands.  Wherever they stop, they demand
    no more than every closed demand does, and where they settle their demand is closed itself. */
module DemandedBits {
  import opened Words
  import opened Ir
  import opened Semantics
  import opened Blocks
  import opened Ssa
  import opened SsaNaming
  import opened SsaBuild
  import opened KnownBitsFacts
  import opened KnownBitsSweep

  type Demand = seq<u64>

  // ----- the order of masks and of demands -----

  /** Every bit of `a` is a bit of `b`. */
  ghost predicate BitsIn(a: u64, b: u64) {
    forall i: nat :: Bit(a, i) ==> Bit(b, i)
  }

  lemma BitsInSelf(a: u64)
    ensures BitsIn(a, a)
  {}

  lemma BitsInZero(a: u64, b: u64)
    requires BitsIn(a, b)
    ensures BitsIn(0, b) && (b == 0 ==> a == 0)
  {
    forall i: nat
      ensures !Bit(0, i)
    {
      BitOfZero(i);
    }
    if b == 0 {
      SameBits(a, b);
    }
    hide Bit;
  }

  /** The union is the least mask above both. */
  lemma UnionLeast(a: u64, b: u64, c: u64)
    ensures BitsIn(Or64(a, b), c) <==> BitsIn(a, c) && BitsIn(b, c)
  {
    hide Or64;
    hide Bit;
    forall i: nat
      ensures Bit(Or64(a, b), i) == (Bit(a, i) || Bit(b, i))
    {
      Words.BitOr(a, b, i);
    }
  }

  lemma UnionGrows(a: u64, b: u64, c: u64, d: u64)
    requires BitsIn(a, c) && BitsIn(b, d)
    ensures BitsIn(Or64(a, b), Or64(c, d))
  {
    UnionLeast(c, d, Or64(c, d));
    UnionLeast(a, b, Or64(c, d));
    hide Or64;
    hide Bit;
  }

  lemma MaskedGrows(a: u64, b: u64, mask: u64)
    requires BitsIn(a, b)
    ensures BitsIn(And(a, mask), And(b, mask))
  {
    forall i: nat
      ensures Bit(And(a, mask), i) ==> Bit(And(b, mask), i)
    {
      Words.BitAnd(a, mask, i);
      Words.BitAnd(b, mask, i);
    }
  }

  lemma ShiftedGrows(a: u64, b: u64, k: nat)
    requires BitsIn(a, b)
    ensures BitsIn(Down(a, k), Down(b, k)) && BitsIn(ShiftLeft(a, k), ShiftLeft(b, k))
  {
    forall i: nat
      ensures Bit(Down(a, k), i) ==> Bit(Down(b, k), i)
      ensures Bit(ShiftLeft(a, k), i) ==> Bit(ShiftLeft(b, k), i)
    {
      BitDown(a, k, i);
      BitDown(b, k, i);
      BitShiftLeft(a, k, i);
      BitShiftLeft(b, k, i);
    }
  }

  /** `after` demands everything that `before` does. */
  ghost predicate Grows(before: Demand, after: Demand) {
    |after| == |before| && forall v: nat :: v < |before| ==> BitsIn(before[v], after[v])
  }

  lemma GrowsSelf(a: Demand)
    ensures Grows(a, a)
  {}

  lemma GrowsTransitive(a: Demand, b: Demand, c: Demand)
    requires Grows(a, b) && Grows(b, c)
    ensures Grows(a, c)
  {
    hide Bit;
  }

  lemma GrowsBoth(a: Demand, b: Demand)
    requires Grows(a, b) && Grows(b, a)
    ensures a == b
  {
    forall v: nat | v < |a|
      ensures a[v] == b[v]
    {
      assert BitsIn(a[v], b[v]) && BitsIn(b[v], a[v]);
      SameBits(a[v], b[v]);
    }
  }

  function Add(demand: Demand, v: nat, mask: u64): (r: Demand)
    ensures |r| == |demand|
  {
    if v < |demand| then demand[v := Or64(demand[v], mask)] else demand
  }

  /** Value `v` has at least the demand `mask`. */
  ghost predicate Has(demand: Demand, v: nat, mask: u64) {
    v < |demand| ==> BitsIn(mask, demand[v])
  }

  /** Adding a demand gives the least demand that has it. */
  lemma AddLeast(demand: Demand, v: nat, mask: u64, c: Demand)
    ensures Grows(demand, Add(demand, v, mask)) && Has(Add(demand, v, mask), v, mask)
    ensures Grows(demand, c) && Has(c, v, mask) ==> Grows(Add(demand, v, mask), c)
  {
    if v < |demand| {
      UnionLeast(demand[v], mask, Or64(demand[v], mask));
      if v < |c| {
        UnionLeast(demand[v], mask, c[v]);
      }
    }
    hide Bit;
    hide Or64;
  }

  // ----- what an instruction demands -----

  /** Of which slots which bits are demanded. */
  type Demands = seq<(nat, u64)>

  function OfOperand(o: RuntimeOperand, mask: u64): Demands {
    match o
    case Slot(x) => [(x, mask)]
    case Imm(_) => []
  }

  function MaskOf(other: RuntimeOperand, output: u64): u64 {
    match other
    case Imm(mask) => And(output, mask)
    case Slot(_) => output
  }

  function LhsMask(op: RuntimeBinOp, rhs: RuntimeOperand, output: u64): u64 {
    match op
    case Add | Sub | Mul | BitOr | BitXor => output
    case BitAnd => MaskOf(rhs, output)
    case Shl => if rhs.Imm? && rhs.imm < 64 then Down(output, rhs.imm) else MAX
    case ShrUnsigned | ShrSigned => if rhs.Imm? && rhs.imm < 64 then ShiftLeft(output, rhs.imm) else MAX
    case _ => MAX
  }

  function RhsMask(op: RuntimeBinOp, lhs: RuntimeOperand, output: u64): u64 {
    match op
    case Add | Sub | Mul | BitOr | BitXor => output
    case BitAnd => MaskOf(lhs, output)
    case _ => MAX
  }

  /** `demand_binop_inputs` */
  function OfBinop(op: RuntimeBinOp, lhs: RuntimeOperand, rhs: RuntimeOperand, output: u64): Demands {
    OfOperand(lhs, LhsMask(op, rhs, output)) + OfOperand(rhs, RhsMask(op, lhs, output))
  }

  function OfSlots(slots: seq<nat>): Demands {
    if slots == [] then [] else [(slots[0], MAX)] + OfSlots(slots[1..])
  }

  function WidthMask(bits: nat): u64 {
    if bits >= 64 then MAX
    else
      Pow2Word();
      Pow2Mono(bits, 63);
      Pow2(bits) - 1
  }

  function OfInstr(i: RuntimeInstr, output: u64): Demands {
    match i
    case Mov(_, src) => OfOperand(src, output)
    case BinOp(_, op, lhs, rhs) => OfBinop(op, lhs, rhs, output)
    case BinOpInPlace(dst, op, rhs) => OfBinop(op, Slot(dst), rhs, output)
    case NormalizeInt(dst, _, bits) => [(dst, And(output, WidthMask(bits)))]
    case Cmp(_, _, lhs, rhs) => if output == 0 then [] else OfOperand(lhs, MAX) + OfOperand(rhs, MAX)
    case LoadIndex(_, base_slots, index, _) => if output == 0 then [] else OfSlots(base_slots) + OfOperand(index, MAX)
    case Jump(_) => []
    case Call(_) => []
    case Return => []
    case PrintConst(_) => []
    case _ => OfSlots(ReadSlots(i))
  }

  /** More demand on the results of an instruction means more on what it reads. */
  ghost predicate DemandsGrow(few: Demands, many: Demands) {
    |few| <= |many| && forall k: nat :: k < |few| ==> few[k].0 == many[k].0 && BitsIn(few[k].1, many[k].1)
  }

  lemma SameGrows(ds: Demands)
    ensures DemandsGrow(ds, ds) && DemandsGrow([], ds)
  {}

  lemma PairGrows(lhs: RuntimeOperand, rhs: RuntimeOperand, a: u64, b: u64, c: u64, d: u64)
    requires BitsIn(a, b) && BitsIn(c, d)
    ensures DemandsGrow(OfOperand(lhs, a), OfOperand(lhs, b))
    ensures DemandsGrow(OfOperand(lhs, a) + OfOperand(rhs, c), OfOperand(lhs, b) + OfOperand(rhs, d))
  {
    hide BitsIn;
  }

  lemma MaskGrows(o: RuntimeOperand, a: u64, b: u64)
    requires BitsIn(a, b)
    ensures BitsIn(MaskOf(o, a), MaskOf(o, b))
  {
    if o.Imm? {
      MaskedGrows(a, b, o.imm);
    }
  }

  lemma BinopGrows(op: RuntimeBinOp, lhs: RuntimeOperand, rhs: RuntimeOperand, a: u64, b: u64)
    requires BitsIn(a, b)
    ensures DemandsGrow(OfBinop(op, lhs, rhs, a), OfBinop(op, lhs, rhs, b))
  {
    BitsInSelf(MAX);
    hide BitsIn;
    hide OfOperand;
    hide DemandsGrow;
    MaskGrows(rhs, a, b);
    MaskGrows(lhs, a, b);
    if rhs.Imm? {
      ShiftedGrows(a, b, rhs.imm);
    }
    PairGrows(lhs, rhs, LhsMask(op, rhs, a), LhsMask(op, rhs, b), RhsMask(op, lhs, a), RhsMask(op, lhs, b));
  }

  lemma InstrGrows(i: RuntimeInstr, a: u64, b: u64)
    requires BitsIn(a, b)
    ensures DemandsGrow(OfInstr(i, a), OfInstr(i, b))
  {
    BitsInZero(a, b);
    hide BitsIn;
    hide OfBinop;
    hide OfOperand;
    match i
    case Mov(_, src) => PairGrows(src, src, a, b, a, b);
    case BinOp(_, op, lhs, rhs) => BinopGrows(op, lhs, rhs, a, b);
    case BinOpInPlace(dst, op, rhs) => BinopGrows(op, Slot(dst), rhs, a, b);
    case NormalizeInt(dst, _, bits) => MaskedGrows(a, b, WidthMask(bits));
    case _ => SameGrows(OfInstr(i, b));
  }

  // ----- one sweep -----

  /** What is demanded of the results of an instruction. */
  function OutputDemand(demand: Demand, defs: map<(nat, nat), nat>, i: nat, written: seq<nat>): u64 {
    if written == [] then 0
    else
      var rest := OutputDemand(demand, defs, i, written[1..]);
      if (i, written[0]) in defs && defs[(i, written[0])] < |demand| then
        Or64(demand[defs[(i, written[0])]], rest) else rest
  }

  lemma {:induction false} OutputGrows(d: Demand, e: Demand, defs: map<(nat, nat), nat>, i: nat, written: seq<nat>)
    requires Grows(d, e)
    ensures BitsIn(OutputDemand(d, defs, i, written), OutputDemand(e, defs, i, written))
  {
    if written == [] {
      BitsInSelf(0);
    } else {
      OutputGrows(d, e, defs, i, written[1..]);
      if (i, written[0]) in defs && defs[(i, written[0])] < |d| {
        var v := defs[(i, written[0])];
        UnionGrows(d[v], OutputDemand(d, defs, i, written[1..]), e[v], OutputDemand(e, defs, i, written[1..]));
      }
    }
  }

  /** All demands of one instruction; `row` names the slots that it reads. */
  function Applied(demand: Demand, row: Row, demands: Demands): (r: Demand)
    ensures |r| == |demand|
  {
    if demands == [] then demand
    else
      var before := Applied(demand, row, demands[..|demands| - 1]);
      var (x, mask) := demands[|demands| - 1];
      if x < |row| then Add(before, row[x], mask) else before
  }

  ghost predicate HasAll(demand: Demand, row: Row, demands: Demands) {
    forall k: nat :: k < |demands| && demands[k].0 < |row| ==> Has(demand, row[demands[k].0], demands[k].1)
  }

  lemma {:induction false} AppliedLeast(demand: Demand, row: Row, demands: Demands, c: Demand)
    ensures Grows(demand, Applied(demand, row, demands)) && HasAll(Applied(demand, row, demands), row, demands)
    ensures Grows(demand, c) && HasAll(c, row, demands) ==> Grows(Applied(demand, row, demands), c)
  {
    if demands == [] {
      GrowsSelf(demand);
    } else {
      var front := demands[..|demands| - 1];
      var (x, mask) := demands[|demands| - 1];
      AppliedLeast(demand, row, front, c);
      var before, after := Applied(demand, row, front), Applied(demand, row, demands);
      if x < |row| {
        AddLeast(before, row[x], mask, c);
        GrowsTransitive(demand, before, after);
        StillHasAll(before, after, row, front);
      }
      hide Grows;
      hide Add;
      hide Has;
    }
  }

  lemma StillHasAll(before: Demand, after: Demand, row: Row, demands: Demands)
    requires Grows(before, after) && HasAll(before, row, demands)
    ensures HasAll(after, row, demands)
  {
    hide Bit;
  }

  /** The demand of a phi, added to its inputs. */
  function Passed(demand: Demand, inputs: seq<nat>, mask: u64): (r: Demand)
    ensures |r| == |demand|
  {
    if inputs == [] then demand else Add(Passed(demand, inputs[..|inputs| - 1], mask), inputs[|inputs| - 1], mask)
  }

  ghost predicate HasInputs(demand: Demand, inputs: seq<nat>, mask: u64) {
    forall u :: u in inputs ==> Has(demand, u, mask)
  }

  lemma {:induction false} PassedLeast(demand: Demand, inputs: seq<nat>, mask: u64, c: Demand)
    ensures Grows(demand, Passed(demand, inputs, mask)) && HasInputs(Passed(demand, inputs, mask), inputs, mask)
    ensures Grows(demand, c) && HasInputs(c, inputs, mask) ==> Grows(Passed(demand, inputs, mask), c)
  {
    if inputs == [] {
      GrowsSelf(demand);
    } else {
      var front, last := inputs[..|inputs| - 1], inputs[|inputs| - 1];
      PassedLeast(demand, front, mask, c);
      var before, after := Passed(demand, front, mask), Passed(demand, inputs, mask);
      AddLeast(before, last, mask, c);
      GrowsTransitive(demand, before, after);
      StillHasInputs(before, after, front, mask);
      hide Grows;
      hide Add;
      hide Has;
      assert inputs == front + [last];
    }
  }

  lemma StillHasInputs(before: Demand, after: Demand, inputs: seq<nat>, mask: u64)
    requires Grows(before, after) && HasInputs(before, inputs, mask)
    ensures HasInputs(after, inputs, mask)
  {
    hide Bit;
  }

  // ----- what a sweep works towards -----

  ghost predicate PlacesWithin(phis: Places, preds: seq<seq<nat>>) {
    forall k: nat :: k < |phis| ==> phis[k].0 < |preds|
  }

  /** The inputs of the phi have its demand. */
  ghost predicate PhiClosed(n: Naming, preds: seq<seq<nat>>, demand: Demand, place: (nat, nat))
    requires place.0 < |preds|
  {
    place in n.phis && n.phis[place] < |demand| ==>
      HasInputs(demand, PhiInputs(n, preds, place.0, place.1), demand[n.phis[place]])
  }

  /** What the instruction reads has the demand that its results make of it. */
  ghost predicate InstrClosed(p: RuntimeProgram, n: Naming, names: seq<Row>, demand: Demand, i: nat)
    requires i < |p.instrs| == |names|
  {
    HasAll(demand, names[i], OfInstr(p.instrs[i], OutputDemand(demand, n.defs, i, WriteSlots(p.instrs[i]))))
  }

  ghost predicate PhisClosed(n: Naming, preds: seq<seq<nat>>, phis: Places, demand: Demand)
    requires PlacesWithin(phis, preds)
  {
    forall k: nat :: k < |phis| ==> PhiClosed(n, preds, demand, phis[k])
  }

  ghost predicate InstrsClosed(p: RuntimeProgram, n: Naming, names: seq<Row>, demand: Demand, from: nat)
    requires |p.instrs| == |names|
  {
    forall i: nat :: from <= i < |p.instrs| ==> InstrClosed(p, n, names, demand, i)
  }

  ghost predicate Closed(p: RuntimeProgram, n: Naming, preds: seq<seq<nat>>, phis: Places, names: seq<Row>,
      demand: Demand)
    requires PlacesWithin(phis, preds) && |p.instrs| == |names|
  {
    |demand| == |n.values| && PhisClosed(n, preds, phis, demand) && InstrsClosed(p, n, names, demand, 0)
  }

  // ----- sweeps -----

  function OnePhi(n: Naming, preds: seq<seq<nat>>, demand: Demand, place: (nat, nat)): (r: Demand)
    requires place.0 < |preds|
    ensures |r| == |demand|
  {
    if place in n.phis && n.phis[place] < |demand| then
      Passed(demand, PhiInputs(n, preds, place.0, place.1), demand[n.phis[place]])
    else demand
  }

  function PhisSwept(n: Naming, preds: seq<seq<nat>>, phis: Places, demand: Demand): (r: Demand)
    requires PlacesWithin(phis, preds)
    ensures |r| == |demand|
  {
    if phis == [] then demand
    else OnePhi(n, preds, PhisSwept(n, preds, phis[..|phis| - 1], demand), phis[|phis| - 1])
  }

  function OneInstr(p: RuntimeProgram, n: Naming, names: seq<Row>, demand: Demand, i: nat): (r: Demand)
    requires i < |p.instrs| == |names|
    ensures |r| == |demand|
  {
    Applied(demand, names[i], OfInstr(p.instrs[i], OutputDemand(demand, n.defs, i, WriteSlots(p.instrs[i]))))
  }

  /** From the last instruction back to `i`. */
  function InstrsSwept(p: RuntimeProgram, n: Naming, names: seq<Row>, demand: Demand, i: nat): (r: Demand)
    requires i <= |p.instrs| == |names|
    ensures |r| == |demand|
    decreases |p.instrs| - i
  {
    if i == |p.instrs| then demand else OneInstr(p, n, names, InstrsSwept(p, n, names, demand, i + 1), i)
  }

  function Sweep(p: RuntimeProgram, n: Naming, preds: seq<seq<nat>>, phis: Places, names: seq<Row>,
      demand: Demand): (r: Demand)
    requires PlacesWithin(phis, preds) && |p.instrs| == |names|
    ensures |r| == |demand|
  {
    InstrsSwept(p, n, names, PhisSwept(n, preds, phis, demand), 0)
  }

  function Sweeps(p: RuntimeProgram, n: Naming, preds: seq<seq<nat>>, phis: Places, names: seq<Row>,
      k: nat): (r: Demand)
    requires PlacesWithin(phis, preds) && |p.instrs| == |names|
    ensures |r| == |n.values|
  {
    if k == 0 then seq(|n.values|, _ => 0)
    else Sweep(p, n, preds, phis, names, Sweeps(p, n, preds, phis, names, k - 1))
  }

  // ----- each step is the least one -----

  lemma PhiStep(n: Naming, preds: seq<seq<nat>>, demand: Demand, place: (nat, nat), c: Demand)
    requires place.0 < |preds|
    ensures Grows(demand, OnePhi(n, preds, demand, place))
    ensures OnePhi(n, preds, demand, place) == demand ==> PhiClosed(n, preds, demand, place)
    ensures Grows(demand, c) && PhiClosed(n, preds, c, place) ==> Grows(OnePhi(n, preds, demand, place), c)
  {
    hide PhiInputs;
    if place in n.phis && n.phis[place] < |demand| {
      var v, inputs := n.phis[place], PhiInputs(n, preds, place.0, place.1);
      PassedLeast(demand, inputs, demand[v], c);
      if Grows(demand, c) && PhiClosed(n, preds, c, place) {
        LessInputs(c, inputs, demand[v], c[v]);
      }
      hide Passed;
      hide HasInputs;
      hide BitsIn;
    } else {
      GrowsSelf(demand);
    }
  }

  lemma LessInputs(c: Demand, inputs: seq<nat>, few: u64, many: u64)
    requires HasInputs(c, inputs, many) && BitsIn(few, many)
    ensures HasInputs(c, inputs, few)
  {
    hide Bit;
  }

  lemma InstrStep(p: RuntimeProgram, n: Naming, names: seq<Row>, demand: Demand, i: nat, c: Demand)
    requires i < |p.instrs| == |names|
    ensures Grows(demand, OneInstr(p, n, names, demand, i))
    ensures OneInstr(p, n, names, demand, i) == demand ==> InstrClosed(p, n, names, demand, i)
    ensures Grows(demand, c) && InstrClosed(p, n, names, c, i) ==> Grows(OneInstr(p, n, names, demand, i), c)
  {
    var instr, row := p.instrs[i], names[i];
    var few := OutputDemand(demand, n.defs, i, WriteSlots(instr));
    AppliedLeast(demand, row, OfInstr(instr, few), c);
    if Grows(demand, c) && InstrClosed(p, n, names, c, i) {
      var many := OutputDemand(c, n.defs, i, WriteSlots(instr));
      OutputGrows(demand, c, n.defs, i, WriteSlots(instr));
      InstrGrows(instr, few, many);
      LessAll(c, row, OfInstr(instr, few), OfInstr(instr, many));
    }
    hide Applied;
    hide OfInstr;
    hide HasAll;
    hide Grows;
  }

  lemma LessAll(c: Demand, row: Row, few: Demands, many: Demands)
    requires HasAll(c, row, many) && DemandsGrow(few, many)
    ensures HasAll(c, row, few)
  {
    hide Bit;
    forall k: nat | k < |few| && few[k].0 < |row|
      ensures Has(c, row[few[k].0], few[k].1)
    {
      assert Has(c, row[many[k].0], many[k].1);
    }
  }

  // ----- and so is each sweep -----

  lemma {:induction false} PhisGrow(n: Naming, preds: seq<seq<nat>>, phis: Places, demand: Demand)
    requires PlacesWithin(phis, preds)
    ensures Grows(demand, PhisSwept(n, preds, phis, demand))
  {
    GrowsSelf(demand);
    hide Grows;
    hide OnePhi;
    if phis != [] {
      var before := PhisSwept(n, preds, phis[..|phis| - 1], demand);
      PhisGrow(n, preds, phis[..|phis| - 1], demand);
      PhiStep(n, preds, before, phis[|phis| - 1], demand);
      GrowsTransitive(demand, before, PhisSwept(n, preds, phis, demand));
    }
  }

  lemma {:induction false} PhisBelow(n: Naming, preds: seq<seq<nat>>, phis: Places, demand: Demand, c: Demand)
    requires PlacesWithin(phis, preds) && Grows(demand, c) && PhisClosed(n, preds, phis, c)
    ensures Grows(PhisSwept(n, preds, phis, demand), c)
  {
    hide Grows;
    hide OnePhi;
    hide PhiClosed;
    if phis != [] {
      PhisBelow(n, preds, phis[..|phis| - 1], demand, c);
      PhiStep(n, preds, PhisSwept(n, preds, phis[..|phis| - 1], demand), phis[|phis| - 1], c);
    }
  }

  /** If the phis together add nothing, no phi does. */
  lemma {:induction false} PhisFixed(n: Naming, preds: seq<seq<nat>>, phis: Places, demand: Demand)
    requires PlacesWithin(phis, preds) && Grows(PhisSwept(n, preds, phis, demand), demand)
    ensures PhisSwept(n, preds, phis, demand) == demand && PhisClosed(n, preds, phis, demand)
  {
    hide Grows;
    hide OnePhi;
    hide PhiClosed;
    if phis != [] {
      var front, last := phis[..|phis| - 1], phis[|phis| - 1];
      var before := PhisSwept(n, preds, front, demand);
      PhisGrow(n, preds, front, demand);
      PhiStep(n, preds, before, last, demand);
      GrowsTransitive(before, OnePhi(n, preds, before, last), demand);
      GrowsBoth(before, demand);
      GrowsBoth(OnePhi(n, preds, before, last), demand);
      PhisFixed(n, preds, front, demand);
    }
  }

  lemma {:induction false} InstrsGrow(p: RuntimeProgram, n: Naming, names: seq<Row>, demand: Demand, i: nat)
    requires i <= |p.instrs| == |names|
    ensures Grows(demand, InstrsSwept(p, n, names, demand, i))
    decreases |p.instrs| - i
  {
    GrowsSelf(demand);
    hide Grows;
    hide OneInstr;
    if i < |p.instrs| {
      var before := InstrsSwept(p, n, names, demand, i + 1);
      InstrsGrow(p, n, names, demand, i + 1);
      InstrStep(p, n, names, before, i, demand);
      GrowsTransitive(demand, before, InstrsSwept(p, n, names, demand, i));
    }
  }

  lemma {:induction false} InstrsBelow(p: RuntimeProgram, n: Naming, names: seq<Row>, demand: Demand, c: Demand, i: nat)
    requires i <= |p.instrs| == |names| && Grows(demand, c) && InstrsClosed(p, n, names, c, i)
    ensures Grows(InstrsSwept(p, n, names, demand, i), c)
    decreases |p.instrs| - i
  {
    hide Grows;
    hide OneInstr;
    hide InstrClosed;
    if i < |p.instrs| {
      InstrsBelow(p, n, names, demand, c, i + 1);
      InstrStep(p, n, names, InstrsSwept(p, n, names, demand, i + 1), i, c);
    }
  }

  lemma {:induction false} InstrsFixed(p: RuntimeProgram, n: Naming, names: seq<Row>, demand: Demand, i: nat)
    requires i <= |p.instrs| == |names| && Grows(InstrsSwept(p, n, names, demand, i), demand)
    ensures InstrsSwept(p, n, names, demand, i) == demand && InstrsClosed(p, n, names, demand, i)
    decreases |p.instrs| - i
  {
    hide Grows;
    hide OneInstr;
    hide InstrClosed;
    if i < |p.instrs| {
      var before := InstrsSwept(p, n, names, demand, i + 1);
      InstrsGrow(p, n, names, demand, i + 1);
      InstrStep(p, n, names, before, i, demand);
      GrowsTransitive(before, OneInstr(p, n, names, before, i), demand);
      GrowsBoth(before, demand);
      GrowsBoth(OneInstr(p, n, names, before, i), demand);
      InstrsFixed(p, n, names, demand, i + 1);
    }
  }

  /** A sweep adds nothing exactly when the demand is closed. */
  lemma SettledIffClosed(p: RuntimeProgram, n: Naming, preds: seq<seq<nat>>, phis: Places, names: seq<Row>,
      demand: Demand)
    requires PlacesWithin(phis, preds) && |p.instrs| == |names| && |demand| == |n.values|
    ensures Sweep(p, n, preds, phis, names, demand) == demand <==> Closed(p, n, preds, phis, names, demand)
  {
    var mid := PhisSwept(n, preds, phis, demand);
    var end := InstrsSwept(p, n, names, mid, 0);
    PhisGrow(n, preds, phis, demand);
    InstrsGrow(p, n, names, mid, 0);
    GrowsSelf(demand);
    hide Grows;
    hide PhisClosed;
    hide InstrsClosed;
    if end == demand {
      GrowsBoth(mid, demand);
      PhisFixed(n, preds, phis, demand);
      InstrsFixed(p, n, names, demand, 0);
    }
    if Closed(p, n, preds, phis, names, demand) {
      PhisBelow(n, preds, phis, demand, demand);
      GrowsBoth(mid, demand);
      InstrsBelow(p, n, names, demand, demand, 0);
      GrowsBoth(end, demand);
    }
  }

  /** However many sweeps there are, they demand no more than any closed demand does. */
  lemma {:induction false} SweepsBelow(p: RuntimeProgram, n: Naming, preds: seq<seq<nat>>, phis: Places,
      names: seq<Row>, k: nat, c: Demand)
    requires PlacesWithin(phis, preds) && |p.instrs| == |names| && Closed(p, n, preds, phis, names, c)
    ensures Grows(Sweeps(p, n, preds, phis, names, k), c)
  {
    if k == 0 {
      forall v: nat | v < |n.values|
        ensures BitsIn(0, c[v])
      {
        BitsInSelf(c[v]);
        BitsInZero(c[v], c[v]);
      }
    } else {
      SweepsBelow(p, n, preds, phis, names, k - 1, c);
      var before := Sweeps(p, n, preds, phis, names, k - 1);
      hide Grows;
      hide PhisClosed;
      hide InstrsClosed;
      PhisBelow(n, preds, phis, before, c);
      InstrsBelow(p, n, names, PhisSwept(n, preds, phis, before), c, 0);
    }
  }

  /** No closed demand demands less. */
  ghost predicate BelowClosed(p: RuntimeProgram, n: Naming, preds: seq<seq<nat>>, phis: Places, names: seq<Row>,
      demand: Demand)
    requires PlacesWithin(phis, preds) && |p.instrs| == |names|
  {
    forall c: Demand :: Closed(p, n, preds, phis, names, c) ==> Grows(demand, c)
  }

  lemma SweepsLeast(p: RuntimeProgram, n: Naming, preds: seq<seq<nat>>, phis: Places, names: seq<Row>, k: nat)
    requires PlacesWithin(phis, preds) && |p.instrs| == |names|
    ensures BelowClosed(p, n, preds, phis, names, Sweeps(p, n, preds, phis, names, k))
  {
    hide Closed;
    hide Grows;
    hide Sweeps;
    forall c: Demand | Closed(p, n, preds, phis, names, c)
      ensures Grows(Sweeps(p, n, preds, phis, names, k), c)
    {
      SweepsBelow(p, n, preds, phis, names, k, c);
    }
  }

  /** The demand of some number of sweeps, the last of which has found it closed or not. */
  ghost predicate Swept(p: RuntimeProgram, n: Naming, preds: seq<seq<nat>>, phis: Places, names: seq<Row>,
      demand: Demand, sweeps: nat, settled: bool)
    requires PlacesWithin(phis, preds) && |p.instrs| == |names|
  {
    && demand == Sweeps(p, n, preds, phis, names, sweeps)
    && (settled ==> Closed(p, n, preds, phis, names, demand))
    && (!settled && sweeps > 0 ==> !Closed(p, n, preds, phis, names, Sweeps(p, n, preds, phis, names, sweeps - 1)))
  }

  lemma SweptNext(p: RuntimeProgram, n: Naming, preds: seq<seq<nat>>, phis: Places, names: seq<Row>,
      before: Demand, k: nat, demand: Demand, settled: bool)
    requires PlacesWithin(phis, preds) && |p.instrs| == |names| && Swept(p, n, preds, phis, names, before, k, false)
    requires demand == Sweep(p, n, preds, phis, names, before) && (settled <==> demand == before)
    requires settled <==> Closed(p, n, preds, phis, names, before)
    ensures Swept(p, n, preds, phis, names, demand, k + 1, settled)
  {
    hide Sweep;
    hide Closed;
  }

  // ----- the loops -----

  method Apply(demand: Demand, row: Row, demands: Demands) returns (after: Demand)
    ensures after == Applied(demand, row, demands)
  {
    hide Add;
    after := demand;
    for k := 0 to |demands|
      invariant after == Applied(demand, row, demands[..k])
    {
      assert demands[..k + 1][..k] == demands[..k];
      var (x, mask) := demands[k];
      if x < |row| {
        after := Add(after, row[x], mask);
      }
    }
    assert demands[..|demands|] == demands;
  }

  method Pass(demand: Demand, inputs: seq<nat>, mask: u64) returns (after: Demand)
    ensures after == Passed(demand, inputs, mask)
  {
    hide Add;
    after := demand;
    for j := 0 to |inputs|
      invariant after == Passed(demand, inputs[..j], mask)
    {
      assert inputs[..j + 1][..j] == inputs[..j];
      after := Add(after, inputs[j], mask);
    }
    assert inputs[..|inputs|] == inputs;
  }

  method SweepPhis(n: Naming, preds: seq<seq<nat>>, phis: Places, before: Demand) returns (demand: Demand)
    requires PlacesWithin(phis, preds)
    ensures demand == PhisSwept(n, preds, phis, before)
  {
    hide PhiInputs;
    hide Passed;
    demand := before;
    for k := 0 to |phis|
      invariant demand == PhisSwept(n, preds, phis[..k], before)
    {
      assert phis[..k + 1][..k] == phis[..k];
      var (b, x) := phis[k];
      if (b, x) in n.phis && n.phis[(b, x)] < |demand| {
        demand := Pass(demand, PhiInputs(n, preds, b, x), demand[n.phis[(b, x)]]);
      }
    }
    assert phis[..|phis|] == phis;
  }

  method SweepInstrs(p: RuntimeProgram, n: Naming, names: seq<Row>, before: Demand) returns (demand: Demand)
    requires |names| == |p.instrs|
    ensures demand == InstrsSwept(p, n, names, before, 0)
  {
    hide Applied;
    hide OfInstr;
    demand := before;
    var i: nat := |p.instrs|;
    while i > 0
      invariant 0 <= i <= |p.instrs| && demand == InstrsSwept(p, n, names, before, i)
    {
      i := i - 1;
      var output := OutputDemand(demand, n.defs, i, WriteSlots(p.instrs[i]));
      demand := Apply(demand, names[i], OfInstr(p.instrs[i], output));
    }
  }

  method SweepOnce(p: RuntimeProgram, n: Naming, preds: seq<seq<nat>>, phis: Places, names: seq<Row>, previous: Demand)
    returns (demand: Demand, settled: bool)
    requires |names| == |p.instrs| && PlacesWithin(phis, preds) && |previous| == |n.values|
    ensures demand == Sweep(p, n, preds, phis, names, previous)
    ensures settled <==> demand == previous
    ensures settled <==> Closed(p, n, preds, phis, names, previous)
  {
    hide Closed;
    demand := SweepPhis(n, preds, phis, previous);
    demand := SweepInstrs(p, n, names, demand);
    SettledIffClosed(p, n, preds, phis, names, previous);
    settled := demand == previous;
  }

  /** `compute_demanded_bits`: no more than any closed demand, and closed itself, hence the least closed
      demand, unless the sweeps were stopped by their limit. */
  method ComputeDemandedBits(p: RuntimeProgram, n: Naming, preds: seq<seq<nat>>, phis: Places, names: seq<Row>)
    returns (demand: Demand, sweeps: nat, settled: bool)
    requires |names| == |p.instrs| && PlacesWithin(phis, preds)
    ensures Swept(p, n, preds, phis, names, demand, sweeps, settled)
    ensures BelowClosed(p, n, preds, phis, names, demand)
    ensures settled || sweeps == 4 * |n.values| + 8
  {
    demand := seq(|n.values|, _ => 0);
    sweeps, settled := 0, false;
    var limit := 4 * |n.values| + 8;
    hide Sweep;
    hide Closed;
    hide BelowClosed;
    hide PlacesWithin;
    while sweeps < limit && !settled
      invariant |demand| == |n.values| && sweeps <= limit
      invariant Swept(p, n, preds, phis, names, demand, sweeps, settled)
    {
      hide Swept;
      var before := demand;
      demand, settled := SweepOnce(p, n, preds, phis, names, before);
      SweptNext(p, n, preds, phis, names, before, sweeps, demand, settled);
      sweeps := sweeps + 1;
    }
    SweepsLeast(p, n, preds, phis, names, sweeps);
  }
}
