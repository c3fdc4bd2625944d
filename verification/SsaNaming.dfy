/** What SSA values mean on a run, and the proof that the recorded names are right on every run. */
module SsaNaming {
  import opened Words
  import opened Ir
  import opened Semantics
  import opened Execution
  import opened Blocks
  import opened Ssa

  /** The contents of the values at one point of a run; `None` for a value not defined yet. */
  type Env = seq<Option<u64>>

  function ReadEnv(env: Env, v: nat): Option<u64> {
    if v < |env| then env[v] else None
  }

  /** Entry values hold the initial slots, and so do the phis of the entry block, whose input for the
      function entry is the entry value. */
  function StartEnv(n: Naming, f: Frame): Env {
    seq(|n.values|, v requires 0 <= v < |n.values| =>
      if n.values[v].def == Entry || n.values[v].def == Phi(0) then Some(Get(f, n.values[v].slot)) else None)
  }

  /** Executing instruction `i` gives its result values the contents it wrote. */
  function DefineResults(n: Naming, env: Env, i: nat, f: Frame): (r: Env)
    ensures |r| == |n.values|
  {
    seq(|n.values|, v requires 0 <= v < |n.values| =>
      if n.values[v].def == Instr(i) then Some(Get(f, n.values[v].slot)) else ReadEnv(env, v))
  }

  /** Entering block `c` from block `b` gives the phis of `c`, all at once, their inputs for `b`. */
  function EvaluatePhis(n: Naming, env: Env, b: nat, c: nat): (r: Env)
    ensures |r| == |n.values|
  {
    seq(|n.values|, v requires 0 <= v < |n.values| =>
      if n.values[v].def == Phi(c) && b < |n.outs| && n.values[v].slot < |n.outs[b]| then
        ReadEnv(env, n.outs[b][n.values[v].slot])
      else ReadEnv(env, v))
  }

  /** A step from `s` to `s'` enters a block when it leaves the last instruction of one. */
  predicate EntersBlock(g: BlockGraph, s: State, s': State) {
    && s.pc < |g.block_of| && s'.pc < |g.block_of| && g.block_of[s.pc] < |g.starts|
    && s.pc == g.End(g.block_of[s.pc]) - 1
  }

  function StepEnv(g: BlockGraph, n: Naming, env: Env, s: State, s': State): Env {
    if s.status != Running || s'.status != Running || s.pc >= |g.block_of| then env
    else
      var defined := DefineResults(n, env, s.pc, s'.frame);
      if EntersBlock(g, s, s') then EvaluatePhis(n, defined, g.block_of[s.pc], g.block_of[s'.pc]) else defined
  }

  ghost function RunEnv(w: World, p: RuntimeProgram, g: BlockGraph, n: Naming, f: Frame, k: nat): Env {
    if k == 0 then StartEnv(n, f)
    else StepEnv(g, n, RunEnv(w, p, g, n, f, k - 1), Run(w, p, Start(f), k - 1), Run(w, p, Start(f), k))
  }

  /** The name recorded for slot `x` just before instruction `pc`. */
  ghost function NameAt(p: RuntimeProgram, g: BlockGraph, n: Naming, pc: nat): Row
    requires DefsTotal(p, n.defs) && pc < |g.block_of| && g.block_of[pc] < |g.starts| && g.block_of[pc] < |n.ins|
  {
    RowAt(p, n.defs, n.ins[g.block_of[pc]], g.starts[g.block_of[pc]], pc)
  }

  /** The values named by `row` hold the contents of the slots. */
  ghost predicate RowHolds(p: RuntimeProgram, row: Row, env: Env, f: Frame) {
    |row| == p.slots && forall x :: 0 <= x < p.slots ==> ReadEnv(env, row[x]) == Some(Get(f, x))
  }

  ghost predicate NamesRight(p: RuntimeProgram, g: BlockGraph, n: Naming, s: State, env: Env)
    requires g.Cuts(p) && DefsTotal(p, n.defs) && |n.ins| == |g.starts|
  {
    |env| == |n.values|
      && (s.status == Running && s.pc < |p.instrs| ==> RowHolds(p, NameAt(p, g, n, s.pc), env, s.frame))
  }

  // ----- one instruction -----

  lemma ApplyRowOk(p: RuntimeProgram, n: Naming, row: Row, i: nat)
    requires TablesOk(p, n) && DefsTotal(p, n.defs) && RowOk(p, n.values, row)
    ensures RowOk(p, n.values, ApplyOne(p, n.defs, row, i))
  {}

  lemma {:induction false} RowAtOk(p: RuntimeProgram, n: Naming, row: Row, start: nat, i: nat)
    requires TablesOk(p, n) && DefsTotal(p, n.defs) && RowOk(p, n.values, row)
    ensures RowOk(p, n.values, RowAt(p, n.defs, row, start, i))
  {
    if i > start {
      RowAtOk(p, n, row, start, i - 1);
      ApplyRowOk(p, n, RowAt(p, n.defs, row, start, i - 1), i - 1);
    }
  }

  /** After instruction `i`, its results have the names of its results, and everything else keeps its name. */
  lemma ResultsHold(p: RuntimeProgram, n: Naming, row: Row, i: nat, env: Env, f: Frame, f': Frame)
    requires TablesOk(p, n) && DefsTotal(p, n.defs) && RowOk(p, n.values, row) && RowHolds(p, row, env, f)
    requires forall x :: !WritesSlot(p, i, x) ==> Get(f', x) == Get(f, x)
    ensures RowHolds(p, ApplyOne(p, n.defs, row, i), DefineResults(n, env, i, f'), f')
  {
    var row' := ApplyOne(p, n.defs, row, i);
    var env' := DefineResults(n, env, i, f');
    forall x | 0 <= x < p.slots
      ensures ReadEnv(env', row'[x]) == Some(Get(f', x))
    {
      if !WritesSlot(p, i, x) {
        var v := row[x];
        assert ListedValue(p, n.values[v], v, n.defs, n.phis);
      }
    }
  }

  /** On the edge from `b` to `c`, the names on entry to `c` hold what the names on exit of `b` held. */
  lemma PhisHold(p: RuntimeProgram, g: BlockGraph, preds: seq<seq<nat>>, n: Naming, b: nat, c: nat, env: Env, f: Frame)
    requires Stable(p, g, preds, n) && b < |g.starts| && c < |g.starts| && c in g.successors[b]
    requires RowHolds(p, n.outs[b], env, f)
    ensures RowHolds(p, n.ins[c], EvaluatePhis(n, env, b, c), f)
  {
    var env' := EvaluatePhis(n, env, b, c);
    assert RowOk(p, n.values, n.ins[c]) && RowOk(p, n.values, n.outs[b]);
    forall x | 0 <= x < p.slots
      ensures ReadEnv(env', n.ins[c][x]) == Some(Get(f, x))
    {
      var u, v := n.outs[b][x], n.ins[c][x];
      assert b in preds[c];
      assert u in Candidates(n.outs, preds, c, x);
      assert StableBlock(p, g, preds, n, c);
      assert Merged(n, preds, n.outs, c, x, v);
      assert v == u || n.values[v] == SSAValue(x, Phi(c));
    }
  }

  /** The names after instruction `i`, before any phis. */
  ghost function NameAfter(p: RuntimeProgram, g: BlockGraph, n: Naming, i: nat): Row
    requires DefsTotal(p, n.defs) && i < |g.block_of| && g.block_of[i] < |g.starts| && g.block_of[i] < |n.ins|
  {
    ApplyOne(p, n.defs, NameAt(p, g, n, i), i)
  }

  lemma AfterOk(p: RuntimeProgram, g: BlockGraph, preds: seq<seq<nat>>, n: Naming, i: nat)
    requires Stable(p, g, preds, n) && i < |p.instrs|
    ensures DefsTotal(p, n.defs) && |n.ins| == |n.outs| == |g.starts| == |preds| && |NameAt(p, g, n, i)| == p.slots
    ensures RowOk(p, n.values, NameAt(p, g, n, i)) && RowOk(p, n.values, NameAfter(p, g, n, i))
    ensures forall x :: 0 <= x < p.slots ==>
      if WritesSlot(p, i, x) then n.values[NameAfter(p, g, n, i)[x]].def == Instr(i)
      else NameAfter(p, g, n, i)[x] == NameAt(p, g, n, i)[x]
  {
    var b := g.block_of[i];
    assert StableBlock(p, g, preds, n, b);
    assert RowOk(p, n.values, n.ins[b]);
    hide PredsOk;
    hide StaticNext;
    RowAtOk(p, n, n.ins[b], g.starts[b], i);
    hide RowAt;
    ApplyRowOk(p, n, NameAt(p, g, n, i), i);
  }

  /** The names after an instruction are those at the next one of its block, or those on exit of the block. */
  lemma AfterMoves(p: RuntimeProgram, g: BlockGraph, preds: seq<seq<nat>>, n: Naming, i: nat, j: nat)
    requires Stable(p, g, preds, n) && i < |p.instrs| && j < |p.instrs| && StaticNext(p, i, j)
    requires DefsTotal(p, n.defs) && |n.ins| == |n.outs| == |g.starts|
    ensures var b, c := g.block_of[i], g.block_of[j];
      (j != g.starts[c] && NameAt(p, g, n, j) == NameAfter(p, g, n, i)) ||
      (j == g.starts[c] && c in g.successors[b] && n.outs[b] == NameAfter(p, g, n, i) && NameAt(p, g, n, j) == n.ins[c])
  {
    var b, c := g.block_of[i], g.block_of[j];
    assert StableBlock(p, g, preds, n, b);
    LeavingBlock(g, p, i, j);
    BlockNonempty(g, p, b);
    hide StaticNext;
    hide PredsOk;
    hide WellNamed;
    hide ApplyOne;
  }

  /** Control passes every name on, or brings it to the phi of a block it enters. */
  lemma NextName(p: RuntimeProgram, g: BlockGraph, preds: seq<seq<nat>>, n: Naming, i: nat, j: nat, x: nat)
    requires Stable(p, g, preds, n) && i < |p.instrs| && j < |p.instrs| && StaticNext(p, i, j) && x < p.slots
    ensures DefsTotal(p, n.defs) && |n.ins| == |n.outs| == |g.starts| == |preds|
    ensures RowOk(p, n.values, NameAfter(p, g, n, i)) && RowOk(p, n.values, NameAt(p, g, n, j))
    ensures |NameAt(p, g, n, i)| == p.slots
    ensures if WritesSlot(p, i, x) then n.values[NameAfter(p, g, n, i)[x]].def == Instr(i)
      else NameAfter(p, g, n, i)[x] == NameAt(p, g, n, i)[x]
    ensures var u, v, c := NameAfter(p, g, n, i)[x], NameAt(p, g, n, j)[x], g.block_of[j];
      && (v == u || (j == g.starts[c] && IsPhi(n, c, x, v)))
      && (j == g.starts[c] ==>
        x < |n.outs[g.block_of[i]]| && u == n.outs[g.block_of[i]][x] && u in PhiInputs(n, preds, c, x))
  {
    AfterOk(p, g, preds, n, i);
    AfterOk(p, g, preds, n, j);
    AfterMoves(p, g, preds, n, i, j);
    var c := g.block_of[j];
    hide StaticNext;
    hide NameAt;
    hide ApplyOne;
    if j == g.starts[c] {
      EntryName(p, g, preds, n, g.block_of[i], c, x);
    }
  }

  predicate IsPhi(n: Naming, c: nat, x: nat, v: nat) {
    (c, x) in n.phis && n.phis[(c, x)] == v && v < |n.values| && n.values[v] == SSAValue(x, Phi(c))
  }

  lemma EntryName(p: RuntimeProgram, g: BlockGraph, preds: seq<seq<nat>>, n: Naming, b: nat, c: nat, x: nat)
    requires Stable(p, g, preds, n) && b < |g.starts| && c < |g.starts| && c in g.successors[b] && x < p.slots
    ensures |n.ins| == |n.outs| == |g.starts| == |preds| && |n.ins[c]| == |n.outs[b]| == p.slots
    ensures n.outs[b][x] in PhiInputs(n, preds, c, x)
    ensures n.ins[c][x] == n.outs[b][x] || IsPhi(n, c, x, n.ins[c][x])
  {
    assert RowOk(p, n.values, n.ins[c]) && RowOk(p, n.values, n.outs[b]);
    EdgeName(g, preds, n, b, c, x);
    assert StableBlock(p, g, preds, n, c);
    assert Merged(n, preds, n.outs, c, x, n.ins[c][x]);
    hide PredsOk;
  }

  lemma EdgeName(g: BlockGraph, preds: seq<seq<nat>>, n: Naming, b: nat, c: nat, x: nat)
    requires PredsOk(g, preds) && |n.outs| == |g.starts| && b < |g.starts| && c < |g.starts| && c in g.successors[b]
    requires x < |n.outs[b]|
    ensures n.outs[b][x] in PhiInputs(n, preds, c, x) && n.outs[b][x] in Candidates(n.outs, preds, c, x)
  {
    assert b in preds[c];
    var k :| 0 <= k < |preds[c]| && preds[c][k] == b;
    var own := if c == 0 || preds[c] == [] then [x] else [];
    assert PhiInputs(n, preds, c, x)[|own| + k] == n.outs[b][x];
  }

  /** On entry to the program every slot has its entry name or the phi of the entry block. */
  lemma FirstName(p: RuntimeProgram, g: BlockGraph, preds: seq<seq<nat>>, n: Naming, x: nat)
    requires Stable(p, g, preds, n) && |p.instrs| > 0 && x < p.slots
    ensures DefsTotal(p, n.defs) && |n.ins| == |g.starts| && g.block_of[0] == 0
      && RowOk(p, n.values, NameAt(p, g, n, 0))
    ensures var v := NameAt(p, g, n, 0)[x];
      v < |n.values| && (n.values[v] == SSAValue(x, Entry) || n.values[v] == SSAValue(x, Phi(0)))
  {
    BlockNonempty(g, p, 0);
    assert RowOk(p, n.values, n.ins[0]);
    assert x in Candidates(n.outs, preds, 0, x);
    assert StableBlock(p, g, preds, n, 0);
    assert Merged(n, preds, n.outs, 0, x, n.ins[0][x]);
  }

  lemma StartRight(p: RuntimeProgram, g: BlockGraph, preds: seq<seq<nat>>, n: Naming, f: Frame)
    requires Stable(p, g, preds, n) && |p.instrs| > 0
    ensures NamesRight(p, g, n, Start(f), StartEnv(n, f))
  {
    BlockNonempty(g, p, 0);
    var env := StartEnv(n, f);
    assert RowOk(p, n.values, n.ins[0]);
    forall x | 0 <= x < p.slots
      ensures ReadEnv(env, n.ins[0][x]) == Some(Get(f, x))
    {
      var v := n.ins[0][x];
      assert x in Candidates(n.outs, preds, 0, x);
      assert StableBlock(p, g, preds, n, 0);
      assert Merged(n, preds, n.outs, 0, x, v);
      assert v == x || n.values[v] == SSAValue(x, Phi(0));
    }
  }

  /** Control instructions write nothing; other instructions write what `write_slots` says. */
  lemma StepWrites(w: World, p: RuntimeProgram, s: State)
    requires s.status == Running && s.pc < |p.instrs| && Step(w, p, s).status == Running
    ensures forall x :: !WritesSlot(p, s.pc, x) ==> Get(Step(w, p, s).frame, x) == Get(s.frame, x)
  {
    hide Exec;
    if !IsControl(p.instrs[s.pc]) {
      ExecWrites(w, p.instrs[s.pc], s.frame, s.trace);
    }
  }

  /** The names after the instruction at `s.pc`, before any phis are evaluated. */
  lemma AfterInstr(w: World, p: RuntimeProgram, g: BlockGraph, preds: seq<seq<nat>>, n: Naming, s: State, env: Env)
    requires Stable(p, g, preds, n) && NamesRight(p, g, n, s, env)
    requires s.status == Running && s.pc < |p.instrs| && Step(w, p, s).status == Running
    ensures var b := g.block_of[s.pc];
      RowHolds(p, RowAt(p, n.defs, n.ins[b], g.starts[b], s.pc + 1), DefineResults(n, env, s.pc, Step(w, p, s).frame),
        Step(w, p, s).frame)
  {
    StepWrites(w, p, s);
    hide Step;
    var b := g.block_of[s.pc];
    RowAtOk(p, n, n.ins[b], g.starts[b], s.pc);
    hide PredsOk;
    hide TablesOk;
    hide RowsOk;
    ResultsHold(p, n, NameAt(p, g, n, s.pc), s.pc, env, s.frame, Step(w, p, s).frame);
  }

  /** Going on to the instruction at `s'.pc`, with the phis of its block if it starts one. */
  lemma NextInstr(p: RuntimeProgram, g: BlockGraph, preds: seq<seq<nat>>, n: Naming, s: State, s': State, env: Env)
    requires Stable(p, g, preds, n) && s.status == Running && s'.status == Running && s.pc < |p.instrs|
    requires StaticNext(p, s.pc, s'.pc)
    requires var b := g.block_of[s.pc];
      RowHolds(p, RowAt(p, n.defs, n.ins[b], g.starts[b], s.pc + 1), DefineResults(n, env, s.pc, s'.frame), s'.frame)
    ensures RowHolds(p, NameAt(p, g, n, s'.pc), StepEnv(g, n, env, s, s'), s'.frame)
  {
    var b := g.block_of[s.pc];
    BlockNonempty(g, p, b);
    LeavingBlock(g, p, s.pc, s'.pc);
    AfterOk(p, g, preds, n, s.pc);
    AfterMoves(p, g, preds, n, s.pc, s'.pc);
    hide RowHolds;
    hide Stable;
    hide BlockGraph.Valid;
    hide StaticNext;
    hide DefineResults;
    hide EvaluatePhis;
    hide ApplyOne;
    if EntersBlock(g, s, s') {
      PhisHold(p, g, preds, n, b, g.block_of[s'.pc], DefineResults(n, env, s.pc, s'.frame), s'.frame);
    }
  }

  lemma StepRight(w: World, p: RuntimeProgram, g: BlockGraph, preds: seq<seq<nat>>, n: Naming, s: State, env: Env)
    requires Stable(p, g, preds, n) && StackOfCalls(p, s) && NamesRight(p, g, n, s, env)
    ensures NamesRight(p, g, n, Step(w, p, s), StepEnv(g, n, env, s, Step(w, p, s)))
  {
    var s' := Step(w, p, s);
    if s.status == Running && s.pc < |p.instrs| && s'.status == Running && s'.pc < |p.instrs| {
      StepFollows(w, p, s);
      hide StepAt;
      hide RowHolds;
      AfterInstr(w, p, g, preds, n, s, env);
      NextInstr(p, g, preds, n, s, s', env);
    }
  }

  /** On every run, the value recorded for a slot denotes the content of that slot whenever an
      instruction is about to execute. */
  lemma {:induction false} NamesRightOnRuns(w: World, p: RuntimeProgram, g: BlockGraph, preds: seq<seq<nat>>, n: Naming,
      f: Frame, k: nat)
    requires Stable(p, g, preds, n)
    ensures NamesRight(p, g, n, Run(w, p, Start(f), k), RunEnv(w, p, g, n, f, k))
  {
    hide Step;
    hide Stable;
    hide StepEnv;
    if k == 0 {
      if |p.instrs| > 0 {
        StartRight(p, g, preds, n, f);
      }
    } else {
      NamesRightOnRuns(w, p, g, preds, n, f, k - 1);
      RunStack(w, p, f, k - 1);
      StepRight(w, p, g, preds, n, Run(w, p, Start(f), k - 1), RunEnv(w, p, g, n, f, k - 1));
    }
  }
}
