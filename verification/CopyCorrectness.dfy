/** Copy propagation with compaction preserves behaviour: the new program runs along with the old one,
    skips the deleted copies, and agrees with it on every slot that is not a deleted copy. */
module CopyCorrectness {
  import opened Words
  import opened Ir
  import opened Semantics
  import opened Execution
  import opened Blocks
  import opened Compaction
  import opened CopyPropagation

  /** Wherever a deleted copy may still be read, it equals what it was replaced by. */
  ghost predicate CopiesHold(p: RuntimeProgram, aliases: Aliases, pc: nat, f: Frame) {
    forall i, d :: 0 <= i < pc && SameBlock(p, i, pc) && CopyOf(p, i, d) ==>
      d in aliases && Get(f, d) == Eval(aliases[d], f)
  }

  ghost predicate SameOutside(aliases: Aliases, f: Frame, g: Frame) {
    forall x :: x !in aliases ==> Get(g, x) == Get(f, x)
  }

  /** The stack of the new program holds the new numbers of the old return addresses. */
  ghost predicate StacksMatch(removed: set<nat>, s: seq<nat>, t: seq<nat>) {
    |t| == |s| && forall k :: 0 <= k < |s| ==> t[k] == Kept(removed, s[k])
  }

  ghost predicate Related(p: RuntimeProgram, aliases: Aliases, removed: set<nat>, s: State, t: State) {
    && StackOfCalls(p, s)
    && t.trace == s.trace && t.status == s.status
    && s.pc <= |p.instrs| && t.pc == Kept(removed, s.pc)
    && StacksMatch(removed, s.stack, t.stack)
    && SameOutside(aliases, s.frame, t.frame)
    && CopiesHold(p, aliases, s.pc, s.frame)
  }

  /** What a deleted copy was replaced by is not written after the copy. */
  lemma {:induction false} AliasSettled(p: RuntimeProgram, aliases: Aliases, i: nat, d: nat, j: nat)
    requires ResolvedAliases(p, aliases, |p.instrs|) && CopyOf(p, i, d)
    requires d in aliases && aliases[d].Slot? && Writes(p, j, aliases[d].slot)
    ensures j <= i
    decreases i
  {
    var src := p.instrs[i].src;
    if src.Slot? && src.slot in aliases {
      var k :| 0 <= k < |p.instrs| && CopyOf(p, k, src.slot);
      SourceEarlier(p, i, k, d, src.slot);
      AliasSettled(p, aliases, k, src.slot, j);
    }
  }

  /** Executing the copy itself makes its replacement right. */
  lemma CopyDone(p: RuntimeProgram, aliases: Aliases, i: nat, f: Frame)
    requires ResolvedAliases(p, aliases, |p.instrs|) && IsCandidate(p, i) && CopiesHold(p, aliases, i, f)
    ensures var d := p.instrs[i].dst; var f' := f[d := Eval(p.instrs[i].src, f)];
      d in aliases && Get(f', d) == Eval(aliases[d], f')
  {
    var d, src := p.instrs[i].dst, p.instrs[i].src;
    assert CopyOf(p, i, d);
    if src.Slot? && src.slot in aliases {
      var k :| 0 <= k < |p.instrs| && CopyOf(p, k, src.slot);
      SourceEarlier(p, i, k, d, src.slot);
    }
  }

  lemma CopiesAdvance(w: World, p: RuntimeProgram, aliases: Aliases, pc: nat, f: Frame, t: Trace)
    requires ResolvedAliases(p, aliases, |p.instrs|) && pc < |p.instrs| && !IsControl(p.instrs[pc])
    requires CopiesHold(p, aliases, pc, f) && Exec(w, p.instrs[pc], f, t).Next?
    ensures CopiesHold(p, aliases, pc + 1, Exec(w, p.instrs[pc], f, t).frame)
  {
    var f' := Exec(w, p.instrs[pc], f, t).frame;
    ExecWrites(w, p.instrs[pc], f, t);
    forall i, d | 0 <= i < pc + 1 && SameBlock(p, i, pc + 1) && CopyOf(p, i, d)
      ensures d in aliases && Get(f', d) == Eval(aliases[d], f')
    {
      if i == pc {
        CopyDone(p, aliases, i, f);
      } else {
        assert SameBlock(p, i, pc) && d in aliases;
        if Writes(p, pc, d) {
          CopyUnique(p, i, pc, d);
        }
        if aliases[d].Slot? && Writes(p, pc, aliases[d].slot) {
          AliasSettled(p, aliases, i, d, pc);
        }
      }
    }
  }

  /** A control instruction ends its block, so no copy needs to hold after it. */
  lemma CopiesReset(p: RuntimeProgram, aliases: Aliases, pc: nat, f: Frame)
    requires pc >= |p.instrs| || IsLeader(p, pc)
    ensures CopiesHold(p, aliases, pc, f)
  {}

  lemma OperandFollows(p: RuntimeProgram, i: nat, j: nat, x: nat)
    requires j < |p.instrs| && CopyOf(p, i, x) && Slot(x) in Operands(p.instrs[j])
    ensures i < j && SameBlock(p, i, j)
  {
    hide SameBlock;
    assert Reads(p, j, x);
  }

  /** Reading through the replacements gives what the original operands gave. */
  lemma OperandsTrack(p: RuntimeProgram, aliases: Aliases, pc: nat, f: Frame, g: Frame)
    requires ResolvedAliases(p, aliases, |p.instrs|) && pc < |p.instrs| && CopiesHold(p, aliases, pc, f)
    requires forall x :: x !in aliases ==> Get(g, x) == Get(f, x)
    ensures ReadsTrack(p.instrs[pc], o => Resolve(aliases, o), x => x, f, g)
  {
    forall o | o in Operands(p.instrs[pc])
      ensures Eval(Resolve(aliases, o), g) == Eval(o, f)
    {
      if o.Slot? && o.slot in aliases {
        var i :| 0 <= i < |p.instrs| && CopyOf(p, i, o.slot);
        OperandFollows(p, i, pc, o.slot);
        hide IsCandidate;
        hide SameBlock;
      }
    }
    forall x | x in DirectReads(p.instrs[pc])
      ensures Get(g, x) == Get(f, x)
    {
      assert NamedDirectly(p, x);
    }
  }

  lemma CodeAt(p: RuntimeProgram, aliases: Aliases, removed: set<nat>, q: RuntimeProgram, i: nat)
    requires Propagated(p, aliases, removed, q) && i < |p.instrs| && i !in removed
    ensures Kept(removed, i) < |q.instrs| && Kept(removed, i + 1) == Kept(removed, i) + 1
    ensures q.instrs[Kept(removed, i)]
      == Renumber(removed, |p.instrs|, RewriteInstructionOperands(p.instrs[i], aliases))
  {
    hide Renumber;
    assert KeptAt(RewriteAll(p, aliases).instrs, removed, q.instrs, i);
  }

  ghost predicate SameEffect(aliases: Aliases, e: Effect, d: Effect) {
    match e
    case Stop(status) => d == Stop(status)
    case Next(f, t) => d.Next? && d.trace == t && SameOutside(aliases, f, d.frame)
  }

  lemma DataEffect(w: World, p: RuntimeProgram, aliases: Aliases, pc: nat, f: Frame, g: Frame, t: Trace)
    requires ResolvedAliases(p, aliases, |p.instrs|) && pc < |p.instrs| && !IsControl(p.instrs[pc])
    requires CopiesHold(p, aliases, pc, f) && SameOutside(aliases, f, g)
    ensures var j := RewriteInstructionOperands(p.instrs[pc], aliases);
      !IsControl(j) && TargetOf(j).None? && SameEffect(aliases, Exec(w, p.instrs[pc], f, t), Exec(w, j, g, t))
  {
    var i := p.instrs[pc];
    var fo := (o: RuntimeOperand) => Resolve(aliases, o);
    var fs := (x: nat) => x;
    var j := MapInstr(i, fo, fs);
    OperandsTrack(p, aliases, pc, f, g);
    hide Exec;
    hide CopiesHold;
    hide ResolvedAliases;
    ExecMapped(w, i, fo, fs, f, g, t);
    if Exec(w, i, f, t).Next? {
      ExecWrites(w, i, f, t);
      ExecWrites(w, j, g, t);
      forall x | x !in aliases
        ensures Get(Exec(w, j, g, t).frame, x) == Get(Exec(w, i, f, t).frame, x)
      {
        WritesMapped(i, fo, fs, x);
      }
    }
  }

  lemma DataStep(w: World, p: RuntimeProgram, aliases: Aliases, removed: set<nat>, q: RuntimeProgram, s: State,
      t: State)
    requires Propagated(p, aliases, removed, q) && Related(p, aliases, removed, s, t)
    requires s.status == Running && s.pc < |p.instrs| && s.pc !in removed && !IsControl(p.instrs[s.pc])
    ensures Related(p, aliases, removed, Step(w, p, s), Step(w, q, t))
  {
    hide Exec;
    hide MapInstr;
    CodeAt(p, aliases, removed, q, s.pc);
    DataEffect(w, p, aliases, s.pc, s.frame, t.frame, s.trace);
    StepPlain(w, p, s);
    StepPlain(w, q, t);
    hide StepAt;
    hide ResolvedAliases;
    if Exec(w, p.instrs[s.pc], s.frame, s.trace).Next? {
      CopiesAdvance(w, p, aliases, s.pc, s.frame, s.trace);
    }
  }

  /** `j` is the control instruction `i` rewritten and renumbered. */
  ghost predicate Twin(i: RuntimeInstr, j: RuntimeInstr, removed: set<nat>, f: Frame, g: Frame) {
    match i
    case Jump(target) => j == Jump(Kept(removed, target))
    case Call(target) => j == Call(Kept(removed, target))
    case JumpIfZero(_, target) => j.JumpIfZero? && j.target == Kept(removed, target) && Taken(j, g) == Taken(i, f)
    case JumpIfCmpFalse(_, _, _, target) =>
      j.JumpIfCmpFalse? && j.target == Kept(removed, target) && Taken(j, g) == Taken(i, f)
    case Return => j == Return
    case Exit(code) => j.Exit? && Eval(j.code, g) == Eval(code, f)
    case _ => false
  }

  lemma TwinCode(i: RuntimeInstr, fo: RuntimeOperand -> RuntimeOperand, fs: nat -> nat, removed: set<nat>, len: nat,
      f: Frame, g: Frame)
    requires IsControl(i) && ReadsTrack(i, fo, fs, f, g) && (TargetOf(i).Some? ==> TargetOf(i).value <= len)
    ensures Twin(i, Renumber(removed, len, MapInstr(i, fo, fs)), removed, f, g)
  {
    hide Kept;
    hide EvaluateCmp;
    TakenMapped(i, fo, fs, f, g);
  }

  lemma ControlStep(w: World, p: RuntimeProgram, aliases: Aliases, removed: set<nat>, q: RuntimeProgram, s: State,
      t: State)
    requires Propagated(p, aliases, removed, q) && InRange(p)
      && Related(p, aliases, removed, s, t)
    requires s.status == Running && s.pc < |p.instrs| && s.pc !in removed && IsControl(p.instrs[s.pc])
    ensures Related(p, aliases, removed, Step(w, p, s), Step(w, q, t))
  {
    var i := p.instrs[s.pc];
    CodeAt(p, aliases, removed, q, s.pc);
    OperandsTrack(p, aliases, s.pc, s.frame, t.frame);
    assert InstrInRange(p, i);
    TwinCode(i, o => Resolve(aliases, o), x => x, removed, |p.instrs|, s.frame, t.frame);
    TwinStep(w, p, aliases, removed, q, s, t);
  }

  lemma TwinMoves(w: World, i: RuntimeInstr, j: RuntimeInstr, removed: set<nat>, s: State, t: State)
    requires Twin(i, j, removed, s.frame, t.frame) && s.status == Running && t.status == Running
    requires t.trace == s.trace && t.pc == Kept(removed, s.pc) && StacksMatch(removed, s.stack, t.stack)
    requires Kept(removed, s.pc + 1) == Kept(removed, s.pc) + 1
    ensures var s', t' := StepAt(w, i, s), StepAt(w, j, t);
      && s'.frame == s.frame && t'.frame == t.frame && s'.trace == t'.trace == s.trace && t'.status == s'.status
      && t'.pc == Kept(removed, s'.pc) && StacksMatch(removed, s'.stack, t'.stack)
  {
    hide Taken;
    hide Kept;
  }

  lemma TwinStep(w: World, p: RuntimeProgram, aliases: Aliases, removed: set<nat>, q: RuntimeProgram, s: State,
      t: State)
    requires InRange(p) && Related(p, aliases, removed, s, t)
    requires s.status == Running && s.pc < |p.instrs| && IsControl(p.instrs[s.pc])
    requires t.pc < |q.instrs| && Twin(p.instrs[s.pc], q.instrs[t.pc], removed, s.frame, t.frame)
    requires Kept(removed, s.pc + 1) == Kept(removed, s.pc) + 1
    ensures Related(p, aliases, removed, Step(w, p, s), Step(w, q, t))
  {
    hide Kept;
    hide CopiesHold;
    var i := p.instrs[s.pc];
    assert InstrInRange(p, i);
    TwinMoves(w, i, q.instrs[t.pc], removed, s, t);
    StepFollows(w, p, s);
    StepLands(w, p, s);
    LandsInside(w, p, s);
    hide StepAt;
    hide IsLeader;
    hide Twin;
    var s' := Step(w, p, s);
    if s'.pc >= |p.instrs| || IsLeader(p, s'.pc) {
      CopiesReset(p, aliases, s'.pc, s'.frame);
    }
  }

  lemma LandsInside(w: World, p: RuntimeProgram, s: State)
    requires StackOfCalls(p, s) && s.status == Running && s.pc < |p.instrs| && InstrInRange(p, p.instrs[s.pc])
    ensures IsControl(p.instrs[s.pc]) ==> Step(w, p, s).pc <= |p.instrs|
  {
    hide Taken;
    hide Exec;
    if p.instrs[s.pc].Return? && s.stack != [] {
      assert IsContinuation(p, s.stack[|s.stack| - 1], |p.instrs|);
    }
  }

  /** A deleted copy is a step the new program does not make. */
  lemma RemovedStep(w: World, p: RuntimeProgram, aliases: Aliases, removed: set<nat>, q: RuntimeProgram, s: State,
      t: State)
    requires Propagated(p, aliases, removed, q) && Related(p, aliases, removed, s, t)
    requires s.status == Running && s.pc in removed
    ensures Related(p, aliases, removed, Step(w, p, s), t) && Step(w, p, s).pc == s.pc + 1
  {
    hide CopiesHold;
    hide ResolvedAliases;
    hide Step;
    hide Exec;
    hide IsCandidate;
    hide StepAt;
    assert IsCandidate(p, s.pc);
    CopyStep(w, p, aliases, s);
    CopiesAdvance(w, p, aliases, s.pc, s.frame, s.trace);
    hide StacksMatch;
    hide StackOfCalls;
  }

  lemma CopyStep(w: World, p: RuntimeProgram, aliases: Aliases, s: State)
    requires ResolvedAliases(p, aliases, |p.instrs|) && s.status == Running && IsCandidate(p, s.pc)
    ensures p.instrs[s.pc].dst in aliases && !IsControl(p.instrs[s.pc])
    ensures Exec(w, p.instrs[s.pc], s.frame, s.trace) == Next(Step(w, p, s).frame, s.trace)
    ensures Step(w, p, s) == s.(pc := s.pc + 1, frame := Step(w, p, s).frame)
    ensures forall x :: x != p.instrs[s.pc].dst ==> Get(Step(w, p, s).frame, x) == Get(s.frame, x)
  {
    assert CopyOf(p, s.pc, p.instrs[s.pc].dst);
  }

  lemma KeptStep(w: World, p: RuntimeProgram, aliases: Aliases, removed: set<nat>, q: RuntimeProgram, s: State,
      t: State)
    requires Propagated(p, aliases, removed, q) && InRange(p)
      && Related(p, aliases, removed, s, t)
    requires s.status == Running ==> s.pc !in removed
    ensures Related(p, aliases, removed, Step(w, p, s), Step(w, q, t))
  {
    hide StepAt;
    if s.status == Running && s.pc < |p.instrs| {
      if IsControl(p.instrs[s.pc]) {
        ControlStep(w, p, aliases, removed, q, s, t);
      } else {
        DataStep(w, p, aliases, removed, q, s, t);
      }
    }
  }

  lemma {:induction false} Forward(w: World, p: RuntimeProgram, aliases: Aliases, removed: set<nat>, q: RuntimeProgram,
      f: Frame, n: nat) returns (m: nat)
    requires Propagated(p, aliases, removed, q) && InRange(p)
    ensures Related(p, aliases, removed, Run(w, p, Start(f), n), Run(w, q, Start(f), m))
  {
    hide Step;
    if n == 0 {
      m := 0;
    } else {
      m := Forward(w, p, aliases, removed, q, f, n - 1);
      var s, t := Run(w, p, Start(f), n - 1), Run(w, q, Start(f), m);
      if s.status == Running && s.pc in removed {
        RemovedStep(w, p, aliases, removed, q, s, t);
      } else {
        KeptStep(w, p, aliases, removed, q, s, t);
        m := m + 1;
      }
    }
  }

  /** The old program gets past a stretch of deleted copies. */
  lemma {:induction false} SkipRemoved(w: World, p: RuntimeProgram, aliases: Aliases, removed: set<nat>,
      q: RuntimeProgram, f: Frame, n: nat, t: State) returns (n': nat)
    requires Propagated(p, aliases, removed, q) && Related(p, aliases, removed, Run(w, p, Start(f), n), t)
    ensures Related(p, aliases, removed, Run(w, p, Start(f), n'), t)
    ensures var s := Run(w, p, Start(f), n'); s.status == Running ==> s.pc !in removed
    decreases |p.instrs| - Run(w, p, Start(f), n).pc
  {
    hide Step;
    var s := Run(w, p, Start(f), n);
    n' := n;
    if s.status == Running && s.pc in removed {
      RemovedStep(w, p, aliases, removed, q, s, t);
      n' := SkipRemoved(w, p, aliases, removed, q, f, n + 1, t);
    }
  }

  lemma {:induction false} Backward(w: World, p: RuntimeProgram, aliases: Aliases, removed: set<nat>, q: RuntimeProgram,
      f: Frame, m: nat) returns (n: nat)
    requires Propagated(p, aliases, removed, q) && InRange(p)
    ensures Related(p, aliases, removed, Run(w, p, Start(f), n), Run(w, q, Start(f), m))
  {
    hide Step;
    if m == 0 {
      n := 0;
    } else {
      n := Backward(w, p, aliases, removed, q, f, m - 1);
      var t := Run(w, q, Start(f), m - 1);
      n := SkipRemoved(w, p, aliases, removed, q, f, n, t);
      KeptStep(w, p, aliases, removed, q, Run(w, p, Start(f), n), t);
      n := n + 1;
    }
  }

  lemma PropagationPreservesBehaviour(p: RuntimeProgram, aliases: Aliases, removed: set<nat>, q: RuntimeProgram)
    requires Propagated(p, aliases, removed, q) && InRange(p)
    ensures SameBehaviour(p, q)
  {
    hide Run;
    forall w: World, f: Frame, n: nat
      ensures Matched(w, q, f, Obs(Run(w, p, Start(f), n)))
    {
      var m := Forward(w, p, aliases, removed, q, f, n);
    }
    forall w: World, f: Frame, m: nat
      ensures Matched(w, p, f, Obs(Run(w, q, Start(f), m)))
    {
      var n := Backward(w, p, aliases, removed, q, f, m);
    }
  }
}
