/** A packed object stays within a byte: on every run that starts with bytes in its slots, its slots hold
    bytes at every moment. */
module BytePackingCorrectness {
  import opened Words
  import opened Ir
  import opened Semantics
  import opened Execution
  import opened Blocks
  import opened Ssa
  import opened SsaNaming
  import opened KnownBitsFacts
  import opened KnownBitsSweep
  import opened Dominators
  import opened BytePacking

  /** What the earlier analyses promise. */
  ghost predicate Analysed(p: RuntimeProgram, g: BlockGraph, preds: seq<seq<nat>>, n: Naming, t: ByteTables) {
    && InRange(p) && Stable(p, g, preds, n) && PredsWithin(preds) && DefsTotal(p, n.defs)
    && FactsSound(p, g, n, t.facts) && NamesRecorded(p, g, n, t.names)
    && |t.dom| == |preds| && IsFixpoint(preds, t.dom)
    && DefinitionsRight(p, n, t.facts, |p.instrs|, t.first, t.again)
  }

  // ----- the only definition of a slot -----

  /** Instruction `d`, and no other, writes slot `x`. */
  ghost predicate OnlyWriter(p: RuntimeProgram, d: nat, x: nat) {
    WritesSlot(p, d, x) && forall i: nat :: WritesSlot(p, i, x) ==> i == d
  }

  /** Once `d` has executed, its result is the content of the slot. */
  ghost predicate HoldsResult(n: Naming, env: Env, f: Frame, d: nat, x: nat) {
    (d, x) in n.defs && (ReadEnv(env, n.defs[(d, x)]).Some? ==> ReadEnv(env, n.defs[(d, x)]) == Some(Get(f, x)))
  }

  predicate Moves(g: BlockGraph, s: State, s': State) {
    s.status == Running && s'.status == Running && s.pc < |g.block_of|
  }

  /** A step redefines the results of the instruction it executes and of no other. */
  lemma StepResult(p: RuntimeProgram, g: BlockGraph, n: Naming, env: Env, s: State, s': State, d: nat, x: nat)
    requires TablesOk(p, n) && WritesSlot(p, d, x) && |env| == |n.values|
    ensures (d, x) in n.defs
    ensures ReadEnv(StepEnv(g, n, env, s, s'), n.defs[(d, x)]) ==
      if Moves(g, s, s') && s.pc == d then Some(Get(s'.frame, x)) else ReadEnv(env, n.defs[(d, x)])
  {}

  lemma StoppedFrame(w: World, p: RuntimeProgram, s: State)
    ensures Step(w, p, s).status != Running || s.pc >= |p.instrs| ==> Step(w, p, s).frame == s.frame
  {
    hide Exec;
    hide Taken;
  }

  lemma StepHoldsResult(w: World, p: RuntimeProgram, g: BlockGraph, n: Naming, env: Env, s: State, d: nat, x: nat)
    requires TablesOk(p, n) && g.Cuts(p) && OnlyWriter(p, d, x) && |env| == |n.values|
      && HoldsResult(n, env, s.frame, d, x)
    ensures HoldsResult(n, StepEnv(g, n, env, s, Step(w, p, s)), Step(w, p, s).frame, d, x)
  {
    var s' := Step(w, p, s);
    StepResult(p, g, n, env, s, s', d, x);
    StoppedFrame(w, p, s);
    if Moves(g, s, s') && s.pc != d {
      StepWrites(w, p, s);
      assert !WritesSlot(p, s.pc, x);
    }
  }

  lemma EnvSize(w: World, p: RuntimeProgram, g: BlockGraph, n: Naming, f: Frame, k: nat)
    ensures |RunEnv(w, p, g, n, f, k)| == |n.values|
  {
    hide Run;
  }

  lemma {:induction false} ResultOnRun(w: World, p: RuntimeProgram, g: BlockGraph, n: Naming, f: Frame, k: nat, d: nat,
      x: nat)
    requires TablesOk(p, n) && g.Cuts(p) && OnlyWriter(p, d, x)
    ensures HoldsResult(n, RunEnv(w, p, g, n, f, k), Run(w, p, Start(f), k).frame, d, x)
  {
    hide Step;
    hide StepEnv;
    if k == 0 {
      assert n.values[n.defs[(d, x)]] == SSAValue(x, Instr(d));
    } else {
      ResultOnRun(w, p, g, n, f, k - 1, d, x);
      EnvSize(w, p, g, n, f, k - 1);
      StepHoldsResult(w, p, g, n, RunEnv(w, p, g, n, f, k - 1), Run(w, p, Start(f), k - 1), d, x);
    }
  }

  // ----- dominating definitions have been executed -----

  /** `d` lies before `i` in its block, or in another block that dominates it. */
  predicate ComesFirst(g: BlockGraph, dom: seq<set<nat>>, d: nat, i: nat) {
    DominatesInstr(g, dom, d, i) && d != i
  }

  ghost predicate Executed(p: RuntimeProgram, g: BlockGraph, n: Naming, dom: seq<set<nat>>, env: Env, i: nat)
    requires DefsTotal(p, n.defs)
  {
    forall d: nat, x: nat :: WritesSlot(p, d, x) && ComesFirst(g, dom, d, i) ==> ReadEnv(env, n.defs[(d, x)]).Some?
  }

  lemma ComesFirstStep(p: RuntimeProgram, g: BlockGraph, preds: seq<seq<nat>>, dom: seq<set<nat>>, d: nat, i: nat,
      j: nat)
    requires g.Valid(p) && PredsOk(g, preds) && PredsWithin(preds) && |dom| == |preds| && IsFixpoint(preds, dom)
    requires i < |p.instrs| && StaticNext(p, i, j) && ComesFirst(g, dom, d, j)
    ensures d == i || ComesFirst(g, dom, d, i)
  {
    LeavingBlock(g, p, i, j);
    var b, c, e := g.block_of[i], g.block_of[j], g.block_of[d];
    BlockNonempty(g, p, b);
    BlockNonempty(g, p, e);
    if !(j == i + 1 && c == b) && e != c {
      assert b in preds[c];
      assert e in NextSet(preds, dom, c);
      var k :| 0 <= k < |preds[c]| && preds[c][k] == b;
      assert c != 0 ==> e in dom[preds[c][k]];
    }
  }

  lemma StepExecuted(w: World, p: RuntimeProgram, g: BlockGraph, preds: seq<seq<nat>>, n: Naming, dom: seq<set<nat>>,
      env: Env, s: State)
    requires g.Valid(p) && PredsOk(g, preds) && PredsWithin(preds) && |dom| == |preds| && IsFixpoint(preds, dom)
    requires TablesOk(p, n) && DefsTotal(p, n.defs) && |env| == |n.values| && StackOfCalls(p, s)
    requires s.status == Running && s.pc < |p.instrs| ==> Executed(p, g, n, dom, env, s.pc)
    ensures
      var s' := Step(w, p, s);
      s'.status == Running && s'.pc < |p.instrs| ==> Executed(p, g, n, dom, StepEnv(g, n, env, s, s'), s'.pc)
  {
    var s' := Step(w, p, s);
    StepFollows(w, p, s);
    if s.status == Running && s'.status == Running && s'.pc < |p.instrs| {
      hide Step;
      hide StaticNext;
      hide StepEnv;
      forall d: nat, x: nat | WritesSlot(p, d, x) && ComesFirst(g, dom, d, s'.pc)
        ensures ReadEnv(StepEnv(g, n, env, s, s'), n.defs[(d, x)]).Some?
      {
        ComesFirstStep(p, g, preds, dom, d, s.pc, s'.pc);
        StepResult(p, g, n, env, s, s', d, x);
      }
    }
  }

  lemma StartExecuted(p: RuntimeProgram, g: BlockGraph, preds: seq<seq<nat>>, n: Naming, dom: seq<set<nat>>, f: Frame)
    requires g.Valid(p) && PredsOk(g, preds) && PredsWithin(preds) && |dom| == |preds| && IsFixpoint(preds, dom)
    requires |p.instrs| > 0 && DefsTotal(p, n.defs)
    ensures Executed(p, g, n, dom, StartEnv(n, f), 0)
  {
    BlockNonempty(g, p, 0);
    assert dom[0] == NextSet(preds, dom, 0);
  }

  lemma {:induction false} ExecutedOnRun(w: World, p: RuntimeProgram, g: BlockGraph, preds: seq<seq<nat>>, n: Naming,
      dom: seq<set<nat>>, f: Frame, k: nat)
    requires g.Valid(p) && PredsOk(g, preds) && PredsWithin(preds) && |dom| == |preds| && IsFixpoint(preds, dom)
    requires TablesOk(p, n) && DefsTotal(p, n.defs)
    ensures
      var s := Run(w, p, Start(f), k);
      s.status == Running && s.pc < |p.instrs| ==> Executed(p, g, n, dom, RunEnv(w, p, g, n, f, k), s.pc)
  {
    hide Step;
    hide StepEnv;
    hide StartEnv;
    hide Executed;
    if k == 0 {
      if |p.instrs| > 0 {
        StartExecuted(p, g, preds, n, dom, f);
      }
    } else {
      ExecutedOnRun(w, p, g, preds, n, dom, f, k - 1);
      EnvSize(w, p, g, n, f, k - 1);
      RunStack(w, p, f, k - 1);
      hide BlockGraph.Valid;
      StepExecuted(w, p, g, preds, n, dom, RunEnv(w, p, g, n, f, k - 1), Run(w, p, Start(f), k - 1));
    }
  }

  // ----- one step -----

  ghost predicate HoldsBytes(f: Frame, slots: seq<nat>) {
    forall x :: x in slots ==> Get(f, x) < 256
  }

  lemma ByteBelow(k: KnownBits, v: u64)
    requires Fits(k, v) && FitsByte(k)
    ensures v < 256
  {
    hide Fits;
    FitsBelow(k, v);
  }

  lemma OnlyDefinition(p: RuntimeProgram, n: Naming, t: ByteTables, x: nat)
    requires DefsTotal(p, n.defs) && DefinitionsRight(p, n, t.facts, |p.instrs|, t.first, t.again)
    requires x < p.slots && t.first[x].Some? && !t.again[x]
    ensures OnlyWriter(p, t.first[x].value.0, x)
    ensures t.first[x].value.1 == FactOf(t.facts, n.defs[(t.first[x].value.0, x)])
  {
    assert DefinitionRight(p, n, t.facts, |p.instrs|, x, t.first[x], t.again[x]);
  }

  /** A defined value of the only writer of a slot bounds the slot. */
  lemma ResultByte(w: World, p: RuntimeProgram, g: BlockGraph, n: Naming, facts: Facts, f: Frame, k: nat, d: nat,
      x: nat)
    requires TablesOk(p, n) && g.Cuts(p) && FactsSound(p, g, n, facts) && OnlyWriter(p, d, x)
    requires (d, x) in n.defs && FitsByte(FactOf(facts, n.defs[(d, x)]))
    requires ReadEnv(RunEnv(w, p, g, n, f, k), n.defs[(d, x)]).Some?
    ensures Get(Run(w, p, Start(f), k).frame, x) < 256
  {
    hide Run;
    hide RunEnv;
    hide FitsByte;
    hide Fits;
    ResultOnRun(w, p, g, n, f, k, d, x);
    assert EnvFits(facts, RunEnv(w, p, g, n, f, k));
    ByteBelow(FactOf(facts, n.defs[(d, x)]), Get(Run(w, p, Start(f), k).frame, x));
  }

  /** Storing a slot into a group it belongs to, or moving it to itself, leaves it as it was. */
  lemma SelfWrite(w: World, i: RuntimeInstr, x: nat, f: Frame, t: Trace)
    requires (i.Mov? || i.StoreIndex?) && i.src == Slot(x) && x in WriteSlots(i) && Exec(w, i, f, t).Next?
    ensures Get(Exec(w, i, f, t).frame, x) == Get(f, x)
  {}

  /** An operand that the analysis takes for a byte is one. */
  lemma OperandIsByte(w: World, p: RuntimeProgram, g: BlockGraph, preds: seq<seq<nat>>, n: Naming, t: ByteTables,
      f: Frame, k: nat)
    requires Analysed(p, g, preds, n, t)
    requires var s := Run(w, p, Start(f), k);
      s.status == Running && s.pc < |p.instrs| && (p.instrs[s.pc].Mov? || p.instrs[s.pc].StoreIndex?) &&
      FitsByte(ByteFact(g, t, s.pc, p.instrs[s.pc].src))
    requires Run(w, p, Start(f), k + 1).status == Running
    ensures var s := Run(w, p, Start(f), k); Eval(p.instrs[s.pc].src, s.frame) < 256
  {
    var s := Run(w, p, Start(f), k);
    var i := p.instrs[s.pc];
    assert InstrInRange(p, i);
    hide Run;
    hide WriteSlots;
    if i.src.Imm? {
      FitsConstant(i.src.imm);
      ByteBelow(Constant(i.src.imm), i.src.imm);
    } else {
      var x := i.src.slot;
      assert i.src in Operands(i) && x in ReadSlots(i);
      SlotIsByte(w, p, g, preds, n, t, f, k, x);
    }
  }

  lemma SlotIsByte(w: World, p: RuntimeProgram, g: BlockGraph, preds: seq<seq<nat>>, n: Naming, t: ByteTables, f: Frame,
      k: nat, x: nat)
    requires Analysed(p, g, preds, n, t) && x < p.slots
    requires var s := Run(w, p, Start(f), k);
      s.status == Running && s.pc < |p.instrs| && (p.instrs[s.pc].Mov? || p.instrs[s.pc].StoreIndex?) &&
      p.instrs[s.pc].src == Slot(x) && FitsByte(ByteFact(g, t, s.pc, Slot(x)))
    requires Run(w, p, Start(f), k + 1).status == Running
    ensures Get(Run(w, p, Start(f), k).frame, x) < 256
  {
    hide Step;
    hide RunEnv;
    hide Fits;
    hide FitsByte;
    var s := Run(w, p, Start(f), k);
    var env := RunEnv(w, p, g, n, f, k);
    var here := SlotFact(t.facts, t.names[s.pc], x);
    if FitsByte(here) {
      NamesRightOnRuns(w, p, g, preds, n, f, k);
      assert EnvFits(t.facts, env);
      FitsSlot(p, t.facts, t.names[s.pc], env, s.frame, x);
      ByteBelow(here, Get(s.frame, x));
    } else {
      var d := t.first[x].value.0;
      OnlyDefinition(p, n, t, x);
      if d == s.pc {
        SelfStep(w, p, g, n, t.facts, f, k, x);
      } else {
        ExecutedOnRun(w, p, g, preds, n, t.dom, f, k);
        ResultByte(w, p, g, n, t.facts, f, k, d, x);
      }
    }
  }

  lemma SelfKept(w: World, p: RuntimeProgram, s: State, x: nat)
    requires s.status == Running && s.pc < |p.instrs| && Step(w, p, s).status == Running && WritesSlot(p, s.pc, x)
    requires (p.instrs[s.pc].Mov? || p.instrs[s.pc].StoreIndex?) && p.instrs[s.pc].src == Slot(x)
    ensures Get(Step(w, p, s).frame, x) == Get(s.frame, x)
  {
    SelfWrite(w, p.instrs[s.pc], x, s.frame, s.trace);
    hide Exec;
  }

  lemma SelfStep(w: World, p: RuntimeProgram, g: BlockGraph, n: Naming, facts: Facts, f: Frame, k: nat, x: nat)
    requires TablesOk(p, n) && g.Cuts(p) && FactsSound(p, g, n, facts)
    requires var s := Run(w, p, Start(f), k);
      s.status == Running && s.pc < |p.instrs| && (p.instrs[s.pc].Mov? || p.instrs[s.pc].StoreIndex?) &&
      p.instrs[s.pc].src == Slot(x) && OnlyWriter(p, s.pc, x) &&
      (s.pc, x) in n.defs && FitsByte(FactOf(facts, n.defs[(s.pc, x)]))
    requires Run(w, p, Start(f), k + 1).status == Running
    ensures Get(Run(w, p, Start(f), k).frame, x) < 256
  {
    var s := Run(w, p, Start(f), k);
    var env := RunEnv(w, p, g, n, f, k);
    hide Step;
    hide StepEnv;
    SelfKept(w, p, s, x);
    EnvSize(w, p, g, n, f, k);
    StepResult(p, g, n, env, s, Step(w, p, s), s.pc, x);
    ResultByte(w, p, g, n, facts, f, k + 1, s.pc, x);
  }

  lemma StepByte(w: World, p: RuntimeProgram, s: State, slots: seq<nat>)
    requires s.status == Running && s.pc < |p.instrs| && Step(w, p, s).status == Running
    requires p.instrs[s.pc].Mov? || p.instrs[s.pc].StoreIndex?
    requires Eval(p.instrs[s.pc].src, s.frame) < 256 && HoldsBytes(s.frame, slots)
    ensures HoldsBytes(Step(w, p, s).frame, slots)
  {}

  /** If every write of the object is a byte write, the object holds bytes for ever. */
  lemma {:induction false} PackedStaysByte(w: World, p: RuntimeProgram, g: BlockGraph, preds: seq<seq<nat>>, n: Naming,
      t: ByteTables, slots: seq<nat>, f: Frame, k: nat)
    requires Analysed(p, g, preds, n, t) && WritesBytes(p, g, t, slots) && HoldsBytes(f, slots)
    ensures HoldsBytes(Run(w, p, Start(f), k).frame, slots)
  {
    hide Step;
    if k > 0 {
      PackedStaysByte(w, p, g, preds, n, t, slots, f, k - 1);
      hide Analysed;
      hide ByteFact;
      hide WriteSlots;
      var s := Run(w, p, Start(f), k - 1);
      if s.status == Running && s.pc < |p.instrs| && Step(w, p, s).status == Running
        && WritesAny(p.instrs[s.pc], slots)
      {
        assert WriteIsByte(g, t, s.pc, p.instrs[s.pc], slots);
        OperandIsByte(w, p, g, preds, n, t, f, k - 1);
        StepByte(w, p, s, slots);
      } else {
        StepOther(w, p, s, slots);
      }
    }
  }

  lemma StepOther(w: World, p: RuntimeProgram, s: State, slots: seq<nat>)
    requires HoldsBytes(s.frame, slots)
    requires s.status == Running && s.pc < |p.instrs| && Step(w, p, s).status == Running ==>
      !WritesAny(p.instrs[s.pc], slots)
    ensures HoldsBytes(Step(w, p, s).frame, slots)
  {
    StoppedFrame(w, p, s);
    if s.status == Running && s.pc < |p.instrs| && Step(w, p, s).status == Running {
      StepWrites(w, p, s);
      hide Step;
      hide WriteSlots;
    }
  }

  ghost predicate AlwaysBytes(p: RuntimeProgram, slots: seq<nat>) {
    forall w: World, f: Frame, k: nat :: HoldsBytes(f, slots) ==> HoldsBytes(Run(w, p, Start(f), k).frame, slots)
  }

  /** `refine_memory_representations`: the packed objects are safe to pack. */
  method RefineMemoryRepresentations(p: RuntimeProgram, g: BlockGraph, preds: seq<seq<nat>>, n: Naming, facts: Facts,
      names: seq<Row>, objects: seq<MemoryObject>)
    returns (refined: seq<MemoryObject>, t: ByteTables)
    requires InRange(p) && Stable(p, g, preds, n) && DefsTotal(p, n.defs)
    requires FactsSound(p, g, n, facts) && NamesRecorded(p, g, n, names)
    ensures Analysed(p, g, preds, n, t)
    ensures |refined| == |objects| && forall k :: 0 <= k < |objects| ==> RefinedRight(p, g, t, objects[k], refined[k])
    ensures forall k ::
      0 <= k < |objects| && objects[k].representation != PackedBytes && refined[k].representation == PackedBytes ==>
      AlwaysBytes(p, refined[k].slots)
  {
    PredsOfGraph(g, preds);
    var dom := ComputeDominators(preds);
    var first, again := CollectDefinitions(p, n, facts);
    t := ByteTables(facts, names, dom, first, again);
    assert Analysed(p, g, preds, n, t);
    hide Analysed;
    hide Stable;
    hide FactsSound;
    hide NamesRecorded;
    hide DefinitionsRight;
    hide InRange;
    refined := [];
    for k := 0 to |objects|
      invariant |refined| == k && forall j :: 0 <= j < k ==> RefinedRight(p, g, t, objects[j], refined[j])
    {
      var after := RefineObject(p, g, t, objects[k]);
      hide RefinedRight;
      refined := refined + [after];
    }
    forall k | 0 <= k < |objects| && objects[k].representation != PackedBytes
      && refined[k].representation == PackedBytes
      ensures AlwaysBytes(p, refined[k].slots)
    {
      PackedAlwaysBytes(p, g, preds, n, t, objects[k], refined[k]);
    }
  }

  lemma PackedAlwaysBytes(p: RuntimeProgram, g: BlockGraph, preds: seq<seq<nat>>, n: Naming, t: ByteTables,
      before: MemoryObject, after: MemoryObject)
    requires Analysed(p, g, preds, n, t) && RefinedRight(p, g, t, before, after)
    requires before.representation != PackedBytes && after.representation == PackedBytes
    ensures AlwaysBytes(p, after.slots)
  {
    hide Analysed;
    hide Run;
    forall w: World, f: Frame, k: nat | HoldsBytes(f, after.slots)
      ensures HoldsBytes(Run(w, p, Start(f), k).frame, after.slots)
    {
      PackedStaysByte(w, p, g, preds, n, t, after.slots, f, k);
    }
  }

  lemma PredsOfGraph(g: BlockGraph, preds: seq<seq<nat>>)
    requires PredsOk(g, preds)
    ensures PredsWithin(preds)
  {
    forall b: nat, k: nat | b < |preds| && k < |preds[b]|
      ensures preds[b][k] < |preds|
    {
      assert preds[b][k] in preds[b];
    }
  }
}
