/** 32-bit instructions for results of whose upper half nothing is demanded: on every run they show the same as
    the 64-bit ones, if the demand is closed and adequate. */
module Narrowing {
  import opened Words
  import opened Ir
  import opened Semantics
  import opened Execution
  import opened Blocks
  import opened Ssa
  import opened SsaNaming
  import opened SsaBuild
  import opened KnownBitsFacts
  import opened KnownBitsSweep
  import opened DemandedBits
  import opened DemandExact

  // ----- the emitted code -----

  function Output(p: RuntimeProgram, n: Naming, demand: Demand, i: nat): u64
    requires i < |p.instrs|
  {
    OutputDemand(demand, n.defs, i, WriteSlots(p.instrs[i]))
  }

  /** The demanded width is at most 32, and the operation has a 32-bit form. */
  predicate Takes32(i: RuntimeInstr, output: u64) {
    output < HALF &&
    match i
    case BinOp(_, op, _, rhs) => Narrows(op, rhs)
    case BinOpInPlace(_, op, rhs) => Narrows(op, rhs)
    case _ => false
  }

  function NarrowFrame(i: RuntimeInstr, f: Frame): Frame {
    match i
    case BinOp(dst, op, lhs, rhs) => f[dst := Narrowed(op, Eval(lhs, f), Eval(rhs, f))]
    case BinOpInPlace(dst, op, rhs) => f[dst := Narrowed(op, Get(f, dst), Eval(rhs, f))]
    case _ => f
  }

  ghost function NarrowStep(w: World, p: RuntimeProgram, n: Naming, demand: Demand, s: State): State {
    if s.status == Running && s.pc < |p.instrs| && Takes32(p.instrs[s.pc], Output(p, n, demand, s.pc)) then
      s.(pc := s.pc + 1, frame := NarrowFrame(p.instrs[s.pc], s.frame))
    else Step(w, p, s)
  }

  ghost function NarrowRun(w: World, p: RuntimeProgram, n: Naming, demand: Demand, f: Frame, k: nat): State {
    if k == 0 then Start(f) else NarrowStep(w, p, n, demand, NarrowRun(w, p, n, demand, f, k - 1))
  }

  // ----- one instruction -----

  /** What the pass demands of the operands is enough for what is demanded of the result. */
  predicate InstrAdequate(i: RuntimeInstr, output: u64) {
    match i
    case BinOp(_, op, _, rhs) => Adequate(op, rhs, output) && (Takes32(i, output) ==> NarrowAdequate(op, rhs, output))
    case BinOpInPlace(_, op, rhs) =>
      Adequate(op, rhs, output) && (Takes32(i, output) ==> NarrowAdequate(op, rhs, output))
    case NormalizeInt(_, signed, bits) => NormalizeAdequate(signed, bits, output)
    case LoadIndex(_, _, index, _) => output != 0 || index.Imm?
    case _ => true
  }

  predicate AllAdequate(p: RuntimeProgram, n: Naming, demand: Demand) {
    forall i: nat :: i < |p.instrs| ==> InstrAdequate(p.instrs[i], Output(p, n, demand, i))
  }

  /** The condition, from the program and its demand. */
  method CheckNarrowing(p: RuntimeProgram, n: Naming, demand: Demand) returns (ok: bool)
    ensures ok <==> AllAdequate(p, n, demand)
  {
    for i := 0 to |p.instrs|
      invariant forall k: nat :: k < i ==> InstrAdequate(p.instrs[k], Output(p, n, demand, k))
    {
      hide InstrAdequate;
      hide Output;
      if !InstrAdequate(p.instrs[i], Output(p, n, demand, i)) {
        return false;
      }
    }
    return true;
  }

  ghost predicate InputsAgree(demands: Demands, f: Frame, h: Frame) {
    forall k: nat :: k < |demands| ==> Agree(demands[k].1, Get(f, demands[k].0), Get(h, demands[k].0))
  }

  /** The same stop or output, the demanded bits of the results, and nothing else changed. */
  ghost predicate EffectsAgree(i: RuntimeInstr, output: u64, f: Frame, h: Frame, e: Effect, d: Effect) {
    match e
    case Stop(status) => d == Stop(status)
    case Next(f', t') =>
      && d.Next? && d.trace == t'
      && (forall x :: x in WriteSlots(i) ==> Agree(output, Get(f', x), Get(d.frame, x)))
      && (forall x :: x !in WriteSlots(i) ==> Get(f', x) == Get(f, x) && Get(d.frame, x) == Get(h, x))
  }

  ghost function NarrowExec(w: World, i: RuntimeInstr, output: u64, f: Frame, t: Trace): Effect
    requires !IsControl(i)
  {
    if Takes32(i, output) then Next(NarrowFrame(i, f), t) else Exec(w, i, f, t)
  }

  lemma SameReads(w: World, i: RuntimeInstr, output: u64, f: Frame, h: Frame, t: Trace)
    requires !IsControl(i) && forall x :: x in ReadSlots(i) ==> Get(h, x) == Get(f, x)
    ensures EffectsAgree(i, output, f, h, Exec(w, i, f, t), Exec(w, i, h, t))
  {
    hide Exec;
    hide ReadSlots;
    hide WriteSlots;
    hide Agree;
    ExecFootprint(w, i, h, f, t);
    if Exec(w, i, f, t).Next? {
      forall x | x in WriteSlots(i)
        ensures Agree(output, Get(Exec(w, i, f, t).frame, x), Get(Exec(w, i, h, t).frame, x))
      {
        AgreeSelf(output, Get(Exec(w, i, f, t).frame, x));
      }
    }
  }

  lemma {:induction false} SameSlots(slots: seq<nat>, f: Frame, h: Frame)
    requires InputsAgree(OfSlots(slots), f, h)
    ensures forall x :: x in slots ==> Get(h, x) == Get(f, x)
  {
    if slots != [] {
      var ds := OfSlots(slots);
      assert ds[0] == (slots[0], MAX);
      AgreeAll(Get(f, slots[0]), Get(h, slots[0]));
      forall k: nat | k < |ds[1..]|
        ensures Agree(ds[1..][k].1, Get(f, ds[1..][k].0), Get(h, ds[1..][k].0))
      {
        assert ds[1..][k] == ds[k + 1];
      }
      assert ds[1..] == OfSlots(slots[1..]);
      SameSlots(slots[1..], f, h);
    }
  }

  lemma OperandsAgree(lhs: RuntimeOperand, rhs: RuntimeOperand, l: u64, r: u64, f: Frame, h: Frame)
    requires InputsAgree(OfOperand(lhs, l) + OfOperand(rhs, r), f, h)
    ensures OperandAgrees(lhs, l, Eval(lhs, f), Eval(lhs, h)) && OperandAgrees(rhs, r, Eval(rhs, f), Eval(rhs, h))
  {
    var ds := OfOperand(lhs, l) + OfOperand(rhs, r);
    hide Agree;
    if lhs.Slot? {
      assert ds[0] == (lhs.slot, l);
    }
    if rhs.Slot? {
      assert ds[|OfOperand(lhs, l)|] == (rhs.slot, r);
    }
  }

  /** The results of an operation, 64 bits wide on one side and maybe narrowed on the other. */
  lemma BinopResults(op: RuntimeBinOp, lhs: RuntimeOperand, rhs: RuntimeOperand, output: u64, f: Frame, h: Frame)
    requires InputsAgree(OfBinop(op, lhs, rhs, output), f, h) && Adequate(op, rhs, output)
    ensures ResultAgrees(output, EvaluateBinop(op, Eval(lhs, f), Eval(rhs, f)),
      EvaluateBinop(op, Eval(lhs, h), Eval(rhs, h)))
    ensures Narrows(op, rhs) && NarrowAdequate(op, rhs, output) ==>
      ResultAgrees(output, EvaluateBinop(op, Eval(lhs, f), Eval(rhs, f)),
        Some(Narrowed(op, Eval(lhs, h), Eval(rhs, h))))
  {
    hide Agree;
    hide EvaluateBinop;
    hide Narrowed;
    var a, b, c, d := Eval(lhs, f), Eval(rhs, f), Eval(lhs, h), Eval(rhs, h);
    OperandsAgree(lhs, rhs, LhsMask(op, rhs, output), RhsMask(op, lhs, output), f, h);
    BinopAgrees(op, lhs, rhs, output, a, c, b, d);
    if Narrows(op, rhs) && NarrowAdequate(op, rhs, output) {
      NarrowAgrees(op, rhs, output, c, d);
      if EvaluateBinop(op, a, b).Some? {
        AgreeChain(output, EvaluateBinop(op, a, b).value, EvaluateBinop(op, c, d).value, Narrowed(op, c, d));
      }
    }
  }

  lemma BinopEffects(w: World, i: RuntimeInstr, output: u64, f: Frame, h: Frame, t: Trace)
    requires (i.BinOp? || i.BinOpInPlace?) && InstrAdequate(i, output) && InputsAgree(OfInstr(i, output), f, h)
    ensures EffectsAgree(i, output, f, h, Exec(w, i, f, t), NarrowExec(w, i, output, h, t))
  {
    hide Agree;
    hide EvaluateBinop;
    hide Narrowed;
    hide Adequate;
    hide OfBinop;
    hide Narrows;
    var lhs := if i.BinOp? then i.lhs else Slot(i.dst);
    assert Get(f, i.dst) == Eval(Slot(i.dst), f) && Get(h, i.dst) == Eval(Slot(i.dst), h);
    BinopResults(i.op, lhs, i.rhs, output, f, h);
    hide Eval;
    hide InputsAgree;
    hide NarrowAdequate;
  }

  lemma EffectAgrees(w: World, i: RuntimeInstr, output: u64, f: Frame, h: Frame, t: Trace)
    requires !IsControl(i) && InstrAdequate(i, output) && InputsAgree(OfInstr(i, output), f, h)
    ensures EffectsAgree(i, output, f, h, Exec(w, i, f, t), NarrowExec(w, i, output, h, t))
  {
    if i.BinOp? || i.BinOpInPlace? {
      BinopEffects(w, i, output, f, h, t);
    } else {
      PlainEffects(w, i, output, f, h, t);
    }
  }

  lemma PlainEffects(w: World, i: RuntimeInstr, output: u64, f: Frame, h: Frame, t: Trace)
    requires !IsControl(i) && !i.BinOp? && !i.BinOpInPlace?
    requires InstrAdequate(i, output) && InputsAgree(OfInstr(i, output), f, h)
    ensures EffectsAgree(i, output, f, h, Exec(w, i, f, t), Exec(w, i, h, t))
  {
    match i
    case Mov(dst, src) => MovEffects(w, i, output, f, h, t);
    case NormalizeInt(dst, signed, bits) => NormalizeEffects(w, i, output, f, h, t);
    case Cmp(_, _, lhs, rhs) =>
      if output == 0 {
        UndemandedEffects(w, i, f, h, t);
      } else {
        OperandsAgree(lhs, rhs, MAX, MAX, f, h);
        AllSame(lhs, Eval(lhs, f), Eval(lhs, h));
        AllSame(rhs, Eval(rhs, f), Eval(rhs, h));
        SameReads(w, i, output, f, h, t);
      }
    case LoadIndex(_, base_slots, index, _) =>
      if output == 0 {
        UndemandedEffects(w, i, f, h, t);
      } else {
        LoadReads(base_slots, index, f, h);
        SameReads(w, i, output, f, h, t);
      }
    case PrintConst(_) => SameReads(w, i, output, f, h, t);
    case _ =>
      SameSlots(ReadSlots(i), f, h);
      SameReads(w, i, output, f, h, t);
  }

  lemma LoadReads(base_slots: seq<nat>, index: RuntimeOperand, f: Frame, h: Frame)
    requires InputsAgree(OfSlots(base_slots) + OfOperand(index, MAX), f, h)
    ensures forall x :: x in base_slots || Slot(x) == index ==> Get(h, x) == Get(f, x)
  {
    var ds := OfSlots(base_slots) + OfOperand(index, MAX);
    forall k: nat | k < |OfSlots(base_slots)|
      ensures Agree(OfSlots(base_slots)[k].1, Get(f, OfSlots(base_slots)[k].0), Get(h, OfSlots(base_slots)[k].0))
    {
      assert ds[k] == OfSlots(base_slots)[k];
    }
    SameSlots(base_slots, f, h);
    if index.Slot? {
      assert ds[|OfSlots(base_slots)|] == (index.slot, MAX);
      AgreeAll(Get(f, index.slot), Get(h, index.slot));
    }
    hide Agree;
  }

  lemma MovEffects(w: World, i: RuntimeInstr, output: u64, f: Frame, h: Frame, t: Trace)
    requires i.Mov? && InputsAgree(OfInstr(i, output), f, h)
    ensures EffectsAgree(i, output, f, h, Exec(w, i, f, t), Exec(w, i, h, t))
  {
    if i.src.Slot? {
      assert OfInstr(i, output)[0] == (i.src.slot, output);
    } else {
      AgreeSelf(output, i.src.imm);
    }
    hide Agree;
  }

  lemma NormalizeEffects(w: World, i: RuntimeInstr, output: u64, f: Frame, h: Frame, t: Trace)
    requires i.NormalizeInt? && InstrAdequate(i, output) && InputsAgree(OfInstr(i, output), f, h)
    ensures EffectsAgree(i, output, f, h, Exec(w, i, f, t), Exec(w, i, h, t))
  {
    assert OfInstr(i, output)[0] == (i.dst, And(output, WidthMask(i.bits)));
    NormalizeAgrees(i.signed, i.bits, output, Get(f, i.dst), Get(h, i.dst));
    hide Agree;
    hide Normalize;
  }

  /** Nothing is demanded of the result, and the instruction does not stop or stops anyway. */
  lemma UndemandedEffects(w: World, i: RuntimeInstr, f: Frame, h: Frame, t: Trace)
    requires i.Cmp? || (i.LoadIndex? && i.index.Imm?)
    ensures EffectsAgree(i, 0, f, h, Exec(w, i, f, t), Exec(w, i, h, t))
  {
    if Exec(w, i, f, t).Next? {
      AgreeNone(Get(Exec(w, i, f, t).frame, i.dst), Get(Exec(w, i, h, t).frame, i.dst));
    }
    hide Agree;
    hide EvaluateCmp;
  }

  // ----- along a run -----

  /** What the demand rests on: stable names, recorded for every instruction, and the list of all phis. */
  ghost predicate Grounded(p: RuntimeProgram, g: BlockGraph, preds: seq<seq<nat>>, n: Naming, phis: Places,
      names: seq<Row>, demand: Demand)
  {
    && InRange(p) && Stable(p, g, preds, n) && DefsTotal(p, n.defs) && NamesRecorded(p, g, n, names)
    && ListsPhis(n, phis) && PlacesWithin(phis, preds) && Closed(p, n, preds, phis, names, demand)
  }

  /** The slots agree in the bits that are demanded of their names. */
  ghost predicate FramesAgree(p: RuntimeProgram, g: BlockGraph, n: Naming, demand: Demand, pc: nat, f: Frame, h: Frame)
    requires g.Cuts(p) && DefsTotal(p, n.defs) && |n.ins| == |g.starts| && pc < |p.instrs|
  {
    var row := NameAt(p, g, n, pc);
    forall x: nat :: x < p.slots && x < |row| && row[x] < |demand| ==> Agree(demand[row[x]], Get(f, x), Get(h, x))
  }

  lemma {:induction false} DemandsOfSlots(slots: seq<nat>)
    ensures forall k: nat :: k < |OfSlots(slots)| ==> OfSlots(slots)[k].0 in slots
  {
    if slots != [] {
      DemandsOfSlots(slots[1..]);
    }
  }

  /** Only what an instruction reads is demanded by it. */
  lemma DemandsRead(i: RuntimeInstr, output: u64)
    ensures forall k: nat :: k < |OfInstr(i, output)| ==> OfInstr(i, output)[k].0 in ReadSlots(i)
  {
    hide LhsMask;
    hide RhsMask;
    DemandsOfSlots(ReadSlots(i));
    match i
    case Mov(_, src) => assert src in Operands(i);
    case BinOp(_, _, lhs, rhs) => assert lhs in Operands(i) && rhs in Operands(i);
    case BinOpInPlace(_, _, rhs) => assert rhs in Operands(i);
    case NormalizeInt(_, _, _) =>
    case Cmp(_, _, lhs, rhs) => assert lhs in Operands(i) && rhs in Operands(i);
    case LoadIndex(_, base_slots, index, _) =>
      DemandsOfSlots(base_slots);
      assert index in Operands(i);
    case _ =>
  }

  lemma InputsAgreeAt(p: RuntimeProgram, g: BlockGraph, preds: seq<seq<nat>>, n: Naming, phis: Places,
      names: seq<Row>, demand: Demand, i: nat, f: Frame, h: Frame)
    requires Grounded(p, g, preds, n, phis, names, demand) && i < |p.instrs|
    requires FramesAgree(p, g, n, demand, i, f, h)
    ensures InputsAgree(OfInstr(p.instrs[i], Output(p, n, demand, i)), f, h)
  {
    AfterOk(p, g, preds, n, i);
    assert InstrInRange(p, p.instrs[i]) && InstrClosed(p, n, names, demand, i);
    assert names[i] == NameAt(p, g, n, i);
    var row, ds := NameAt(p, g, n, i), OfInstr(p.instrs[i], Output(p, n, demand, i));
    DemandsRead(p.instrs[i], Output(p, n, demand, i));
    hide Stable;
    hide NameAt;
    hide OfInstr;
    hide ReadSlots;
    hide Agree;
    hide BitsIn;
    hide ListsPhis;
    forall k: nat | k < |ds|
      ensures Agree(ds[k].1, Get(f, ds[k].0), Get(h, ds[k].0))
    {
      var x := ds[k].0;
      assert x < p.slots;
      assert Has(demand, row[x], ds[k].1);
      AgreeLess(ds[k].1, demand[row[x]], Get(f, x), Get(h, x));
    }
  }

  lemma {:induction false} OutputHas(demand: Demand, defs: map<(nat, nat), nat>, i: nat, written: seq<nat>, x: nat)
    requires x in written && (i, x) in defs && defs[(i, x)] < |demand|
    ensures BitsIn(demand[defs[(i, x)]], OutputDemand(demand, defs, i, written))
  {
    var rest := OutputDemand(demand, defs, i, written[1..]);
    BitsInSelf(rest);
    if (i, written[0]) in defs && defs[(i, written[0])] < |demand| {
      var first := demand[defs[(i, written[0])]];
      BitsInSelf(Or64(first, rest));
      UnionLeast(first, rest, Or64(first, rest));
      if written[0] != x {
        OutputHas(demand, defs, i, written[1..], x);
        BitsInChain(demand[defs[(i, x)]], rest, Or64(first, rest));
      }
    } else {
      OutputHas(demand, defs, i, written[1..], x);
    }
  }

  lemma BitsInChain(a: u64, b: u64, c: u64)
    requires BitsIn(a, b) && BitsIn(b, c)
    ensures BitsIn(a, c)
  {
    hide Bit;
  }

  /** A name passed on, or brought to a phi, has no more demand afterwards. */
  lemma DemandPassed(p: RuntimeProgram, g: BlockGraph, preds: seq<seq<nat>>, n: Naming, phis: Places,
      names: seq<Row>, demand: Demand, i: nat, j: nat, x: nat)
    requires Grounded(p, g, preds, n, phis, names, demand) && i < |p.instrs| && j < |p.instrs| && StaticNext(p, i, j)
    requires x < p.slots
    ensures RowOk(p, n.values, NameAfter(p, g, n, i)) && RowOk(p, n.values, NameAt(p, g, n, j))
    ensures BitsIn(demand[NameAt(p, g, n, j)[x]], demand[NameAfter(p, g, n, i)[x]])
  {
    NextName(p, g, preds, n, i, j, x);
    var u, v, c := NameAfter(p, g, n, i)[x], NameAt(p, g, n, j)[x], g.block_of[j];
    hide Stable;
    hide NameAt;
    hide NameAfter;
    hide StaticNext;
    hide NamesRecorded;
    hide InstrsClosed;
    BitsInSelf(demand[v]);
    if v != u {
      assert (c, x) in phis;
      var k :| 0 <= k < |phis| && phis[k] == (c, x);
      assert PhiClosed(n, preds, demand, phis[k]);
      hide PhiInputs;
      hide BitsIn;
      assert Has(demand, u, demand[v]);
    }
  }

  lemma NextAgrees(p: RuntimeProgram, g: BlockGraph, preds: seq<seq<nat>>, n: Naming, phis: Places,
      names: seq<Row>, demand: Demand, i: nat, j: nat, f: Frame, h: Frame, f': Frame, h': Frame)
    requires Grounded(p, g, preds, n, phis, names, demand) && i < |p.instrs| && j < |p.instrs| && StaticNext(p, i, j)
    requires FramesAgree(p, g, n, demand, i, f, h)
    requires forall x :: x in WriteSlots(p.instrs[i]) ==> Agree(Output(p, n, demand, i), Get(f', x), Get(h', x))
    requires forall x :: x !in WriteSlots(p.instrs[i]) ==> Get(f', x) == Get(f, x) && Get(h', x) == Get(h, x)
    ensures FramesAgree(p, g, n, demand, j, f', h')
  {
    AfterOk(p, g, preds, n, i);
    AfterOk(p, g, preds, n, j);
    forall x: nat | x < p.slots
      ensures Agree(demand[NameAt(p, g, n, j)[x]], Get(f', x), Get(h', x))
    {
      DemandPassed(p, g, preds, n, phis, names, demand, i, j, x);
      var u := NameAfter(p, g, n, i)[x];
      AfterAgrees(p, g, n, demand, i, x, f, h, f', h');
      AgreeLess(demand[NameAt(p, g, n, j)[x]], demand[u], Get(f', x), Get(h', x));
    }
    hide *;
  }

  lemma AfterAgrees(p: RuntimeProgram, g: BlockGraph, n: Naming, demand: Demand, i: nat, x: nat, f: Frame, h: Frame,
      f': Frame, h': Frame)
    requires g.Cuts(p) && DefsTotal(p, n.defs) && |n.ins| == |g.starts| && i < |p.instrs| && x < p.slots
    requires |NameAt(p, g, n, i)| == p.slots && NameAfter(p, g, n, i)[x] < |demand|
    requires FramesAgree(p, g, n, demand, i, f, h)
    requires x in WriteSlots(p.instrs[i]) ==> Agree(Output(p, n, demand, i), Get(f', x), Get(h', x))
    requires x !in WriteSlots(p.instrs[i]) ==> Get(f', x) == Get(f, x) && Get(h', x) == Get(h, x)
    ensures Agree(demand[NameAfter(p, g, n, i)[x]], Get(f', x), Get(h', x))
  {
    hide Agree;
    hide NameAt;
    if x in WriteSlots(p.instrs[i]) {
      assert WritesSlot(p, i, x);
      OutputHas(demand, n.defs, i, WriteSlots(p.instrs[i]), x);
      AgreeLess(demand[n.defs[(i, x)]], Output(p, n, demand, i), Get(f', x), Get(h', x));
    }
  }

  /** The same point of the run, with slots that agree in their demanded bits. */
  ghost predicate Tracks(p: RuntimeProgram, g: BlockGraph, n: Naming, demand: Demand, s: State, t: State)
    requires g.Cuts(p) && DefsTotal(p, n.defs) && |n.ins| == |g.starts|
  {
    && t == s.(frame := t.frame) && StackOfCalls(p, s)
    && (s.status == Running && s.pc < |p.instrs| ==> FramesAgree(p, g, n, demand, s.pc, s.frame, t.frame))
  }

  lemma GroundedShape(p: RuntimeProgram, g: BlockGraph, preds: seq<seq<nat>>, n: Naming, phis: Places,
      names: seq<Row>, demand: Demand)
    requires Grounded(p, g, preds, n, phis, names, demand)
    ensures g.Cuts(p) && DefsTotal(p, n.defs) && |n.ins| == |g.starts|
  {}

  lemma ControlTracks(w: World, p: RuntimeProgram, g: BlockGraph, preds: seq<seq<nat>>, n: Naming, phis: Places,
      names: seq<Row>, demand: Demand, s: State, t: State)
    requires Grounded(p, g, preds, n, phis, names, demand) && Tracks(p, g, n, demand, s, t)
    requires s.status == Running && s.pc < |p.instrs| && IsControl(p.instrs[s.pc])
    ensures Tracks(p, g, n, demand, Step(w, p, s), NarrowStep(w, p, n, demand, t))
  {
    var instr, s' := p.instrs[s.pc], Step(w, p, s);
    InputsAgreeAt(p, g, preds, n, phis, names, demand, s.pc, s.frame, t.frame);
    ControlReads(instr, Output(p, n, demand, s.pc), s.frame, t.frame);
    ControlSame(w, p, s, t.frame);
    StepFollows(w, p, s);
    hide Step;
    if s'.status == Running && s'.pc < |p.instrs| {
      NextAgrees(p, g, preds, n, phis, names, demand, s.pc, s'.pc, s.frame, t.frame, s'.frame, t.frame);
    }
    hide Grounded;
    hide FramesAgree;
    hide Output;
  }

  lemma ControlReads(i: RuntimeInstr, output: u64, f: Frame, h: Frame)
    requires IsControl(i) && InputsAgree(OfInstr(i, output), f, h)
    ensures forall x :: x in ReadSlots(i) ==> Get(h, x) == Get(f, x)
    ensures !Takes32(i, output)
  {
    if i.JumpIfZero? || i.JumpIfCmpFalse? || i.Exit? {
      SameSlots(ReadSlots(i), f, h);
    }
  }

  lemma PlainTracks(w: World, p: RuntimeProgram, g: BlockGraph, preds: seq<seq<nat>>, n: Naming, phis: Places,
      names: seq<Row>, demand: Demand, s: State, t: State)
    requires Grounded(p, g, preds, n, phis, names, demand) && Tracks(p, g, n, demand, s, t)
    requires AllAdequate(p, n, demand) && s.status == Running && s.pc < |p.instrs| && !IsControl(p.instrs[s.pc])
    ensures Tracks(p, g, n, demand, Step(w, p, s), NarrowStep(w, p, n, demand, t))
  {
    hide Exec;
    hide NarrowExec;
    hide FramesAgree;
    var instr, output := p.instrs[s.pc], Output(p, n, demand, s.pc);
    InputsAgreeAt(p, g, preds, n, phis, names, demand, s.pc, s.frame, t.frame);
    assert InstrAdequate(instr, output);
    EffectAgrees(w, instr, output, s.frame, t.frame, s.trace);
    NarrowPlain(w, p, n, demand, t);
    StepPlain(w, p, s);
    StepFollows(w, p, s);
    hide *;
    AdvanceTracks(p, g, preds, n, phis, names, demand, s, t, Exec(w, instr, s.frame, s.trace),
      NarrowExec(w, instr, output, t.frame, s.trace));
  }

  lemma AdvanceTracks(p: RuntimeProgram, g: BlockGraph, preds: seq<seq<nat>>, n: Naming, phis: Places,
      names: seq<Row>, demand: Demand, s: State, t: State, e: Effect, d: Effect)
    requires Grounded(p, g, preds, n, phis, names, demand) && g.Cuts(p) && DefsTotal(p, n.defs)
      && |n.ins| == |g.starts|
    requires Tracks(p, g, n, demand, s, t) && s.status == Running && s.pc < |p.instrs|
    requires EffectsAgree(p.instrs[s.pc], Output(p, n, demand, s.pc), s.frame, t.frame, e, d)
    requires StackOfCalls(p, Advance(s, e)) && (e.Stop? ==> e.status != Running)
    requires Advance(s, e).status == Running && Advance(s, e).pc < |p.instrs| ==> StaticNext(p, s.pc, Advance(s, e).pc)
    ensures Tracks(p, g, n, demand, Advance(s, e), Advance(t, d))
  {
    hide Grounded;
    hide FramesAgree;
    hide Output;
    hide StaticNext;
    hide StackOfCalls;
    hide Agree;
    if e.Next? && s.pc + 1 < |p.instrs| {
      NextAgrees(p, g, preds, n, phis, names, demand, s.pc, s.pc + 1, s.frame, t.frame, e.frame, d.frame);
    }
  }

  lemma NarrowPlain(w: World, p: RuntimeProgram, n: Naming, demand: Demand, t: State)
    requires t.status == Running && t.pc < |p.instrs| && !IsControl(p.instrs[t.pc])
    ensures NarrowStep(w, p, n, demand, t) ==
      Advance(t, NarrowExec(w, p.instrs[t.pc], Output(p, n, demand, t.pc), t.frame, t.trace))
  {
    StepPlain(w, p, t);
    hide Step;
    hide Exec;
    hide Output;
    hide Takes32;
    hide NarrowFrame;
  }

  lemma HaltTracks(w: World, p: RuntimeProgram, g: BlockGraph, n: Naming, demand: Demand, s: State, t: State)
    requires g.Cuts(p) && DefsTotal(p, n.defs) && |n.ins| == |g.starts| && Tracks(p, g, n, demand, s, t)
    requires s.status != Running || s.pc >= |p.instrs|
    ensures Tracks(p, g, n, demand, Step(w, p, s), NarrowStep(w, p, n, demand, t))
  {
    hide FramesAgree;
  }

  lemma {:induction false} TracksOnRuns(w: World, p: RuntimeProgram, g: BlockGraph, preds: seq<seq<nat>>, n: Naming,
      phis: Places, names: seq<Row>, demand: Demand, f: Frame, k: nat)
    requires Grounded(p, g, preds, n, phis, names, demand) && AllAdequate(p, n, demand)
    ensures g.Cuts(p) && DefsTotal(p, n.defs) && |n.ins| == |g.starts|
    ensures Tracks(p, g, n, demand, Run(w, p, Start(f), k), NarrowRun(w, p, n, demand, f, k))
  {
    GroundedShape(p, g, preds, n, phis, names, demand);
    hide Grounded;
    hide AllAdequate;
    if k == 0 {
      StartTracks(p, g, n, demand, f);
    } else {
      hide Tracks;
      TracksOnRuns(w, p, g, preds, n, phis, names, demand, f, k - 1);
      var s, t := Run(w, p, Start(f), k - 1), NarrowRun(w, p, n, demand, f, k - 1);
      hide Step;
      hide NarrowStep;
      if s.status != Running || s.pc >= |p.instrs| {
        HaltTracks(w, p, g, n, demand, s, t);
      } else if IsControl(p.instrs[s.pc]) {
        ControlTracks(w, p, g, preds, n, phis, names, demand, s, t);
      } else {
        PlainTracks(w, p, g, preds, n, phis, names, demand, s, t);
      }
    }
  }

  lemma StartTracks(p: RuntimeProgram, g: BlockGraph, n: Naming, demand: Demand, f: Frame)
    requires g.Cuts(p) && DefsTotal(p, n.defs) && |n.ins| == |g.starts|
    ensures Tracks(p, g, n, demand, Start(f), Start(f))
  {
    hide Agree;
    forall mask: u64, a: u64
      ensures Agree(mask, a, a)
    {
      AgreeSelf(mask, a);
    }
  }

  /** With a closed and adequate demand, the code with 32-bit instructions shows the same as the program after
      every number of steps. */
  lemma NarrowingPreservesRuns(w: World, p: RuntimeProgram, g: BlockGraph, preds: seq<seq<nat>>, n: Naming,
      phis: Places, names: seq<Row>, demand: Demand, f: Frame, k: nat)
    requires Grounded(p, g, preds, n, phis, names, demand) && AllAdequate(p, n, demand)
    ensures Obs(NarrowRun(w, p, n, demand, f, k)) == Obs(Run(w, p, Start(f), k))
  {
    TracksOnRuns(w, p, g, preds, n, phis, names, demand, f, k);
    hide Grounded;
    hide FramesAgree;
  }
}
