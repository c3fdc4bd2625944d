/** `compute_known_bits`: sweeps over all SSA values, and the proof that the facts are sound on every run
    after any number of sweeps, whether or not they have settled. */
module KnownBitsSweep {
  import opened Words
  import opened Ir
  import opened Semantics
  import opened Execution
  import opened Blocks
  import opened Ssa
  import opened SsaNaming
  import opened SsaBuild
  import opened KnownBitsFacts

  type Facts = seq<KnownBits>

  function FactOf(facts: Facts, v: nat): KnownBits {
    if v < |facts| then facts[v] else UNKNOWN
  }

  function SlotFact(facts: Facts, row: Row, x: nat): KnownBits {
    if x < |row| then FactOf(facts, row[x]) else UNKNOWN
  }

  function OperandFact(facts: Facts, row: Row, o: RuntimeOperand): KnownBits {
    match o
    case Imm(v) => Constant(v)
    case Slot(x) => SlotFact(facts, row, x)
  }

  /** `known_bits_for_instruction`; `row` names the slots just before the instruction. */
  function KnownForInstr(i: RuntimeInstr, facts: Facts, row: Row): KnownBits {
    match i
    case Mov(_, src) => OperandFact(facts, row, src)
    case BinOp(_, op, lhs, rhs) =>
      KnownForBinop(op, lhs, rhs, OperandFact(facts, row, lhs), OperandFact(facts, row, rhs))
    case BinOpInPlace(dst, op, rhs) =>
      KnownForBinop(op, Slot(dst), rhs, SlotFact(facts, row, dst), OperandFact(facts, row, rhs))
    case Cmp(_, _, _, _) => KnownBits(Not(1), 0)
    case NormalizeInt(dst, signed, bits) => KnownForNormalize(SlotFact(facts, row, dst), signed, bits)
    case _ => UNKNOWN
  }

  function MeetAll(inputs: seq<nat>, facts: Facts): KnownBits {
    if inputs == [] then UNKNOWN
    else if |inputs| == 1 then FactOf(facts, inputs[0])
    else Meet(MeetAll(inputs[..|inputs| - 1], facts), FactOf(facts, inputs[|inputs| - 1]))
  }

  /** What one sweep makes of value `v`, given the facts of the previous sweep. */
  function FactFor(p: RuntimeProgram, n: Naming, preds: seq<seq<nat>>, names: seq<Row>, facts: Facts, v: nat): KnownBits
    requires v < |n.values|
  {
    match n.values[v].def
    case Entry => UNKNOWN
    case Phi(b) => if b < |preds| then MeetAll(PhiInputs(n, preds, b, n.values[v].slot), facts) else UNKNOWN
    case Instr(i) => if i < |p.instrs| && i < |names| then KnownForInstr(p.instrs[i], facts, names[i]) else UNKNOWN
  }

  function Sweep(p: RuntimeProgram, n: Naming, preds: seq<seq<nat>>, names: seq<Row>, facts: Facts): (r: Facts)
    ensures |r| == |n.values|
  {
    seq(|n.values|, v requires 0 <= v < |n.values| => Consistent(FactFor(p, n, preds, names, facts, v)))
  }

  function Sweeps(p: RuntimeProgram, n: Naming, preds: seq<seq<nat>>, names: seq<Row>, k: nat): (r: Facts)
    ensures |r| == |n.values|
  {
    if k == 0 then seq(|n.values|, v => UNKNOWN) else Sweep(p, n, preds, names, Sweeps(p, n, preds, names, k - 1))
  }

  // ----- the construction -----

  ghost predicate NamesRecorded(p: RuntimeProgram, g: BlockGraph, n: Naming, names: seq<Row>)
    requires g.Cuts(p) && DefsTotal(p, n.defs) && |n.ins| == |g.starts|
  {
    |names| == |p.instrs| && RecordedSoFar(p, g, n, names)
  }

  ghost predicate RecordedSoFar(p: RuntimeProgram, g: BlockGraph, n: Naming, names: seq<Row>)
    requires g.Cuts(p) && DefsTotal(p, n.defs) && |n.ins| == |g.starts|
  {
    |names| <= |p.instrs| && forall i: nat :: i < |names| ==> names[i] == NameAt(p, g, n, i)
  }

  /** The names recorded for the reads of every instruction. */
  method RecordNames(p: RuntimeProgram, g: BlockGraph, n: Naming) returns (names: seq<Row>)
    requires InRange(p) && g.Valid(p) && WellNamed(p, g, n) && DefsTotal(p, n.defs)
    ensures NamesRecorded(p, g, n, names)
  {
    names := [];
    for b := 0 to |g.starts|
      invariant |names| == if b < |g.starts| then g.starts[b] else |p.instrs|
      invariant RecordedSoFar(p, g, n, names)
    {
      hide RecordedSoFar;
      hide WellNamed;
      BlockWithin(p, g, b);
      names := RecordBlock(p, g, n, names, b);
    }
  }

  method RecordBlock(p: RuntimeProgram, g: BlockGraph, n: Naming, before: seq<Row>, b: nat) returns (names: seq<Row>)
    requires InRange(p) && g.Valid(p) && WellNamed(p, g, n) && DefsTotal(p, n.defs)
    requires b < |g.starts| && |before| == g.starts[b] <= g.End(b) <= |p.instrs| && RecordedSoFar(p, g, n, before)
    ensures |names| == g.End(b) && RecordedSoFar(p, g, n, names)
  {
    names := before;
    assert RowOk(p, n.values, n.ins[b]);
    var current := n.ins[b];
    hide WellNamed;
    for i := g.starts[b] to g.End(b)
      invariant |names| == i
      invariant current == RowAt(p, n.defs, n.ins[b], g.starts[b], i)
      invariant RecordedSoFar(p, g, n, names)
    {
      BlockUnique(g, p, b, i);
      RecordOne(p, g, n, names, current, b);
      hide ApplyOne;
      hide BlockGraph.Valid;
      hide RecordedSoFar;
      names := names + [current];
      current := ApplyInstr(p, n.defs, current, i);
    }
  }

  lemma RecordOne(p: RuntimeProgram, g: BlockGraph, n: Naming, names: seq<Row>, current: Row, b: nat)
    requires g.Cuts(p) && DefsTotal(p, n.defs) && |n.ins| == |g.starts| && RecordedSoFar(p, g, n, names)
    requires |names| < |p.instrs| && b < |g.starts| && g.block_of[|names|] == b
    requires current == RowAt(p, n.defs, n.ins[b], g.starts[b], |names|)
    ensures RecordedSoFar(p, g, n, names + [current])
  {
    hide RowAt;
    hide DefsTotal;
  }

  method MeetInputs(inputs: seq<nat>, facts: Facts) returns (k: KnownBits)
    ensures k == MeetAll(inputs, facts)
  {
    if inputs == [] {
      return UNKNOWN;
    }
    k := FactOf(facts, inputs[0]);
    assert inputs[..1] == [inputs[0]];
    for j := 1 to |inputs|
      invariant k == MeetAll(inputs[..j], facts)
    {
      assert inputs[..j + 1][..j] == inputs[..j];
      k := Meet(k, FactOf(facts, inputs[j]));
    }
    assert inputs[..|inputs|] == inputs;
  }

  method SweepOnce(p: RuntimeProgram, n: Naming, preds: seq<seq<nat>>, names: seq<Row>, previous: Facts)
      returns (facts: Facts)
    requires |previous| == |n.values|
    ensures facts == Sweep(p, n, preds, names, previous)
  {
    facts := previous;
    for v := 0 to |n.values|
      invariant |facts| == |n.values|
      invariant forall u :: 0 <= u < v ==> facts[u] == Consistent(FactFor(p, n, preds, names, previous, u))
    {
      var next := FactOfValue(p, n, preds, names, previous, v);
      hide FactFor;
      facts := facts[v := Consistent(next)];
    }
  }

  method FactOfValue(p: RuntimeProgram, n: Naming, preds: seq<seq<nat>>, names: seq<Row>, previous: Facts, v: nat)
      returns (next: KnownBits)
    requires v < |n.values|
    ensures next == FactFor(p, n, preds, names, previous, v)
  {
    next := UNKNOWN;
    match n.values[v].def {
      case Entry =>
      case Phi(b) =>
        if b < |preds| {
          next := MeetInputs(PhiInputs(n, preds, b, n.values[v].slot), previous);
        }
      case Instr(i) =>
        if i < |p.instrs| && i < |names| {
          next := KnownForInstr(p.instrs[i], previous, names[i]);
        }
    }
  }

  /** `compute_known_bits`: the facts of some number of sweeps; either that number reached the limit, or
      another sweep changes nothing.  In both cases they are sound, once the names are. */
  method ComputeKnownBits(p: RuntimeProgram, g: BlockGraph, preds: seq<seq<nat>>, n: Naming, names: seq<Row>)
      returns (facts: Facts, k: nat)
    ensures facts == Sweeps(p, n, preds, names, k)
    ensures k == 4 * |n.values| + 8 || (k < 4 * |n.values| + 8 && facts == Sweep(p, n, preds, names, facts))
    ensures Stable(p, g, preds, n) && NamesRecorded(p, g, n, names) && InRange(p) ==> FactsSound(p, g, n, facts)
  {
    hide Sweep;
    facts := seq(|n.values|, v => UNKNOWN);
    k := 0;
    var limit := 4 * |n.values| + 8;
    for sweep := 0 to limit
      invariant k == sweep && facts == Sweeps(p, n, preds, names, k)
    {
      var previous := facts;
      facts := SweepOnce(p, n, preds, names, previous);
      k := k + 1;
      if facts == previous {
        k := k - 1;
        break;
      }
    }
    if Stable(p, g, preds, n) && NamesRecorded(p, g, n, names) && InRange(p) {
      SweepsSound(p, g, preds, n, names, k);
    }
  }

  // ----- soundness -----

  ghost predicate EnvFits(facts: Facts, env: Env) {
    forall v: nat :: ReadEnv(env, v).Some? ==> Fits(FactOf(facts, v), ReadEnv(env, v).value)
  }

  /** On every run, at every moment, every value that has been defined fits what is known about it. */
  ghost predicate FactsSound(p: RuntimeProgram, g: BlockGraph, n: Naming, facts: Facts) {
    forall w: World, f: Frame, k: nat :: EnvFits(facts, RunEnv(w, p, g, n, f, k))
  }

  lemma {:induction false} FitsMeetAll(inputs: seq<nat>, facts: Facts, u: nat, x: u64)
    requires u in inputs && Fits(FactOf(facts, u), x)
    ensures Fits(MeetAll(inputs, facts), x)
  {
    if |inputs| > 1 {
      var front, last := inputs[..|inputs| - 1], inputs[|inputs| - 1];
      if u in front {
        FitsMeetAll(front, facts, u, x);
      }
      FitsMeet(MeetAll(front, facts), FactOf(facts, last), x);
    }
  }

  lemma FitsSlot(p: RuntimeProgram, facts: Facts, row: Row, env: Env, f: Frame, x: nat)
    requires RowHolds(p, row, env, f) && EnvFits(facts, env) && x < p.slots
    ensures Fits(SlotFact(facts, row, x), Get(f, x))
  {
    assert ReadEnv(env, row[x]) == Some(Get(f, x));
  }

  lemma FitsOperand(p: RuntimeProgram, facts: Facts, row: Row, env: Env, f: Frame, o: RuntimeOperand)
    requires RowHolds(p, row, env, f) && EnvFits(facts, env) && (o.Slot? ==> o.slot < p.slots)
    ensures Fits(OperandFact(facts, row, o), Eval(o, f))
  {
    match o
    case Imm(v) => FitsConstant(v);
    case Slot(x) => FitsSlot(p, facts, row, env, f, x);
  }

  lemma FitsCmp(b: bool)
    ensures Fits(KnownBits(Not(1), 0), BoolWord(b))
  {
    forall i: nat | i < 64
      ensures FitsBit(KnownBits(Not(1), 0), BoolWord(b), i)
    {
      BitNot(1, i);
      BitOfZero(i);
    }
  }

  lemma FitsScalar(p: RuntimeProgram, i: RuntimeInstr, facts: Facts, row: Row, env: Env, f: Frame)
    requires IsScalar(i) && InstrInRange(p, i) && RowHolds(p, row, env, f) && EnvFits(facts, env)
    requires ScalarValue(i, f).Some?
    ensures Fits(KnownForInstr(i, facts, row), ScalarValue(i, f).value)
  {
    hide EvaluateBinop;
    hide KnownForBinop;
    hide EvaluateCmp;
    hide Fits;
    hide EnvFits;
    hide RowHolds;
    forall o | o in Operands(i)
      ensures Fits(OperandFact(facts, row, o), Eval(o, f))
    {
      assert o.Slot? ==> o.slot in ReadSlots(i);
      FitsOperand(p, facts, row, env, f, o);
    }
    match i
    case Mov(_, src) => assert src in Operands(i);
    case BinOp(_, op, lhs, rhs) =>
      assert lhs in Operands(i) && rhs in Operands(i);
      FitsBinop(op, lhs, rhs, OperandFact(facts, row, lhs), OperandFact(facts, row, rhs), Eval(lhs, f), Eval(rhs, f));
    case BinOpInPlace(dst, op, rhs) =>
      assert rhs in Operands(i) && dst in ReadSlots(i);
      FitsSlot(p, facts, row, env, f, dst);
      FitsBinop(op, Slot(dst), rhs, SlotFact(facts, row, dst), OperandFact(facts, row, rhs), Get(f, dst), Eval(rhs, f));
    case Cmp(_, cmp, lhs, rhs) => FitsCmp(EvaluateCmp(cmp, Eval(lhs, f), Eval(rhs, f)));
    case NormalizeInt(dst, signed, bits) =>
      assert dst in ReadSlots(i);
      FitsSlot(p, facts, row, env, f, dst);
      FitsNormalize(SlotFact(facts, row, dst), Get(f, dst), signed, bits);
  }

  /** What an instruction writes fits what is known about its results. */
  lemma FitsResult(w: World, p: RuntimeProgram, s: State, facts: Facts, row: Row, env: Env, x: nat)
    requires InRange(p) && s.status == Running && WritesSlot(p, s.pc, x) && Step(w, p, s).status == Running
    requires RowHolds(p, row, env, s.frame) && EnvFits(facts, env)
    ensures Fits(KnownForInstr(p.instrs[s.pc], facts, row), Get(Step(w, p, s).frame, x))
  {
    var i := p.instrs[s.pc];
    assert InstrInRange(p, i);
    if IsScalar(i) {
      ExecScalar(w, i, s.frame, s.trace);
      hide Exec;
      FitsScalar(p, i, facts, row, env, s.frame);
    } else {
      FitsUnknown(Get(Step(w, p, s).frame, x));
      hide Step;
    }
  }

  /** The contents of values between executing an instruction and evaluating phis fit as well. */
  lemma FitsBetween(n: Naming, facts: Facts, env: Env, defined: Env, b: nat, c: nat)
    requires |defined| == |n.values| && EnvFits(facts, env) && EnvFits(facts, EvaluatePhis(n, defined, b, c))
    requires forall v: nat :: v < |n.values| && n.values[v].def == Phi(c) ==> defined[v] == ReadEnv(env, v)
    ensures EnvFits(facts, defined)
  {
    forall v: nat | ReadEnv(defined, v).Some?
      ensures Fits(FactOf(facts, v), ReadEnv(defined, v).value)
    {
      if n.values[v].def != Phi(c) {
        assert ReadEnv(EvaluatePhis(n, defined, b, c), v) == ReadEnv(defined, v);
      }
    }
  }

  lemma SweepStart(p: RuntimeProgram, g: BlockGraph, preds: seq<seq<nat>>, n: Naming, names: seq<Row>, facts: Facts,
      f: Frame)
    requires Stable(p, g, preds, n) && EnvFits(facts, StartEnv(n, f))
    ensures EnvFits(Sweep(p, n, preds, names, facts), StartEnv(n, f))
  {
    var env := StartEnv(n, f);
    forall v: nat | ReadEnv(env, v).Some?
      ensures Fits(FactOf(Sweep(p, n, preds, names, facts), v), env[v].value)
    {
      var x := n.values[v].slot;
      FitsUnknown(env[v].value);
      if n.values[v].def == Phi(0) {
        assert ListedValue(p, n.values[v], v, n.defs, n.phis);

        assert PhiInputs(n, preds, 0, x)[0] == x;
        assert ReadEnv(env, x) == Some(Get(f, x));
        FitsMeetAll(PhiInputs(n, preds, 0, x), facts, x, env[v].value);
      }
      FitsConsistent(FactFor(p, n, preds, names, facts, v), env[v].value);
    }
  }

  lemma SweepDefined(w: World, p: RuntimeProgram, g: BlockGraph, preds: seq<seq<nat>>, n: Naming, names: seq<Row>,
      facts: Facts, s: State, env: Env)
    requires Stable(p, g, preds, n) && NamesRecorded(p, g, n, names) && InRange(p) && NamesRight(p, g, n, s, env)
    requires s.status == Running && s.pc < |p.instrs| && Step(w, p, s).status == Running
    requires EnvFits(facts, env) && EnvFits(Sweep(p, n, preds, names, facts), env)
    ensures EnvFits(Sweep(p, n, preds, names, facts), DefineResults(n, env, s.pc, Step(w, p, s).frame))
  {
    hide Step;
    hide KnownForInstr;
    var env' := DefineResults(n, env, s.pc, Step(w, p, s).frame);
    var swept := Sweep(p, n, preds, names, facts);
    forall v: nat | ReadEnv(env', v).Some?
      ensures Fits(FactOf(swept, v), ReadEnv(env', v).value)
    {
      if n.values[v].def == Instr(s.pc) {
        assert ListedValue(p, n.values[v], v, n.defs, n.phis);
        var x := n.values[v].slot;
        assert names[s.pc] == NameAt(p, g, n, s.pc);
        FitsResult(w, p, s, facts, names[s.pc], env, x);
        FitsConsistent(KnownForInstr(p.instrs[s.pc], facts, names[s.pc]), env'[v].value);
      } else {
        assert ReadEnv(env', v) == ReadEnv(env, v);
      }
    }
  }

  lemma SweepPhis(p: RuntimeProgram, g: BlockGraph, preds: seq<seq<nat>>, n: Naming, names: seq<Row>, facts: Facts,
      defined: Env, b: nat, c: nat)
    requires Stable(p, g, preds, n) && b < |g.starts| && c < |g.starts| && c in g.successors[b]
      && |defined| == |n.values|
    requires EnvFits(facts, defined) && EnvFits(Sweep(p, n, preds, names, facts), defined)
    ensures EnvFits(Sweep(p, n, preds, names, facts), EvaluatePhis(n, defined, b, c))
  {
    var env' := EvaluatePhis(n, defined, b, c);
    var swept := Sweep(p, n, preds, names, facts);
    forall v: nat | ReadEnv(env', v).Some?
      ensures Fits(FactOf(swept, v), ReadEnv(env', v).value)
    {
      if n.values[v].def == Phi(c) {
        assert ListedValue(p, n.values[v], v, n.defs, n.phis);
        var x := n.values[v].slot;
        assert b in preds[c] && RowOk(p, n.values, n.outs[b]);
        var inputs := PhiInputs(n, preds, c, x);
        InputOfPred(n, preds, b, c, x);
        FitsMeetAll(inputs, facts, n.outs[b][x], env'[v].value);
        FitsConsistent(MeetAll(inputs, facts), env'[v].value);
      } else {
        assert ReadEnv(env', v) == ReadEnv(defined, v);
      }
    }
  }

  lemma InputOfPred(n: Naming, preds: seq<seq<nat>>, b: nat, c: nat, x: nat)
    requires c < |preds| && b in preds[c] && b < |n.outs| && x < |n.outs[b]|
    ensures n.outs[b][x] in PhiInputs(n, preds, c, x)
  {
    var k: nat :| k < |preds[c]| && preds[c][k] == b;
    var entry := if c == 0 || preds[c] == [] then 1 else 0;
    assert PhiInputs(n, preds, c, x)[entry + k] == n.outs[b][x];
  }

  lemma SweepStep(w: World, p: RuntimeProgram, g: BlockGraph, preds: seq<seq<nat>>, n: Naming, names: seq<Row>,
      facts: Facts, s: State, env: Env)
    requires Stable(p, g, preds, n) && NamesRecorded(p, g, n, names) && InRange(p) && NamesRight(p, g, n, s, env)
      && StackOfCalls(p, s)
    requires EnvFits(facts, env) && EnvFits(facts, StepEnv(g, n, env, s, Step(w, p, s)))
    requires EnvFits(Sweep(p, n, preds, names, facts), env)
    ensures EnvFits(Sweep(p, n, preds, names, facts), StepEnv(g, n, env, s, Step(w, p, s)))
  {
    var s' := Step(w, p, s);
    if s.status == Running && s.pc < |p.instrs| && s'.status == Running {
      StepFollows(w, p, s);
      hide Step;
      hide Sweep;
      hide EnvFits;
      SweepDefined(w, p, g, preds, n, names, facts, s, env);
      var defined := DefineResults(n, env, s.pc, s'.frame);
      if EntersBlock(g, s, s') {
        LeavesFor(p, g, s.pc, s'.pc);
        FitsBetween(n, facts, env, defined, g.block_of[s.pc], g.block_of[s'.pc]);
        SweepPhis(p, g, preds, n, names, facts, defined, g.block_of[s.pc], g.block_of[s'.pc]);
      }
    }
  }

  lemma LeavesFor(p: RuntimeProgram, g: BlockGraph, i: nat, j: nat)
    requires g.Valid(p) && i < |p.instrs| && StaticNext(p, i, j) && i == g.End(g.block_of[i]) - 1
    ensures g.block_of[j] < |g.starts| && g.block_of[i] < |g.starts| && g.block_of[j] in g.successors[g.block_of[i]]
  {
    LeavingBlock(g, p, i, j);
    BlockNonempty(g, p, g.block_of[i]);
  }

  lemma {:induction false} SweepOnRun(w: World, p: RuntimeProgram, g: BlockGraph, preds: seq<seq<nat>>, n: Naming,
      names: seq<Row>, facts: Facts, f: Frame, k: nat)
    requires Stable(p, g, preds, n) && NamesRecorded(p, g, n, names) && InRange(p) && FactsSound(p, g, n, facts)
    ensures EnvFits(Sweep(p, n, preds, names, facts), RunEnv(w, p, g, n, f, k))
  {
    hide Step;
    hide EnvFits;
    hide Sweep;
    hide StepEnv;
    hide StartEnv;
    assert EnvFits(facts, RunEnv(w, p, g, n, f, k));
    if k == 0 {
      SweepStart(p, g, preds, n, names, facts, f);
    } else {
      assert EnvFits(facts, RunEnv(w, p, g, n, f, k - 1));
      SweepOnRun(w, p, g, preds, n, names, facts, f, k - 1);
      NamesRightOnRuns(w, p, g, preds, n, f, k - 1);
      RunStack(w, p, f, k - 1);
      hide Stable;
      SweepStep(w, p, g, preds, n, names, facts, Run(w, p, Start(f), k - 1), RunEnv(w, p, g, n, f, k - 1));
    }
  }

  /** The facts are sound after any number of sweeps. */
  lemma {:induction false} SweepsSound(p: RuntimeProgram, g: BlockGraph, preds: seq<seq<nat>>, n: Naming,
      names: seq<Row>, k: nat)
    requires Stable(p, g, preds, n) && NamesRecorded(p, g, n, names) && InRange(p)
    ensures FactsSound(p, g, n, Sweeps(p, n, preds, names, k))
  {
    hide Sweep;
    hide RunEnv;
    hide Stable;
    if k == 0 {
      forall w: World, f: Frame, j: nat
        ensures EnvFits(Sweeps(p, n, preds, names, 0), RunEnv(w, p, g, n, f, j))
      {
        UnknownFits(n, RunEnv(w, p, g, n, f, j));
      }
    } else {
      SweepsSound(p, g, preds, n, names, k - 1);
      forall w: World, f: Frame, j: nat
        ensures EnvFits(Sweeps(p, n, preds, names, k), RunEnv(w, p, g, n, f, j))
      {
        SweepOnRun(w, p, g, preds, n, names, Sweeps(p, n, preds, names, k - 1), f, j);
      }
    }
  }

  lemma UnknownFits(n: Naming, env: Env)
    ensures EnvFits(seq(|n.values|, v => UNKNOWN), env)
  {
    forall v: nat | ReadEnv(env, v).Some?
      ensures Fits(FactOf(seq(|n.values|, u => UNKNOWN), v), ReadEnv(env, v).value)
    {
      FitsUnknown(ReadEnv(env, v).value);
    }
  }

  /** What sound facts say about the machine: whenever an instruction is about to execute, every slot
      has a 0 in each bit known to be zero and a 1 in each bit known to be one. */
  lemma KnownBitsOfSlots(w: World, p: RuntimeProgram, g: BlockGraph, preds: seq<seq<nat>>, n: Naming, names: seq<Row>,
      facts: Facts, f: Frame, k: nat, x: nat)
    requires Stable(p, g, preds, n) && NamesRecorded(p, g, n, names) && FactsSound(p, g, n, facts) && x < p.slots
    requires Run(w, p, Start(f), k).status == Running && Run(w, p, Start(f), k).pc < |p.instrs|
    ensures
      var s := Run(w, p, Start(f), k);
      var fact := SlotFact(facts, names[s.pc], x);
      And(Get(s.frame, x), fact.zero) == 0 && And(Get(s.frame, x), fact.one) == fact.one
  {
    hide Run;
    hide RunEnv;
    hide Fits;
    NamesRightOnRuns(w, p, g, preds, n, f, k);
    var s := Run(w, p, Start(f), k);
    var env := RunEnv(w, p, g, n, f, k);
    hide Stable;
    assert EnvFits(facts, env);
    FitsSlot(p, facts, names[s.pc], env, s.frame, x);
    FitsMasks(SlotFact(facts, names[s.pc], x), Get(s.frame, x));
  }
}
