/** Facts about single instructions and about runs that every pass proof uses. */
module Execution {
  import opened Words
  import opened Ir
  import opened Semantics

  // ----- one instruction -----

  /** An instruction changes no slot outside `write_slots`. */
  lemma ExecWrites(w: World, i: RuntimeInstr, f: Frame, t: Trace)
    requires !IsControl(i) && Exec(w, i, f, t).Next?
    ensures forall x :: x !in WriteSlots(i) ==> Get(Exec(w, i, f, t).frame, x) == Get(f, x)
  {}

  /** `g` holds under the names `fs` gives what `f` holds, for everything `i` reads, and operands
      evaluate alike. */
  ghost predicate ReadsTrack(i: RuntimeInstr, fo: RuntimeOperand -> RuntimeOperand, fs: nat -> nat, f: Frame,
      g: Frame)
  {
    && (forall o :: o in Operands(i) ==> Eval(fo(o), g) == Eval(o, f))
    && (forall x :: x in DirectReads(i) ==> Get(g, fs(x)) == Get(f, x))
  }

  ghost predicate WritesApart(i: RuntimeInstr, fs: nat -> nat) {
    forall x, y :: x in WriteSlots(i) && y in WriteSlots(i) && fs(x) == fs(y) ==> x == y
  }

  ghost predicate EffectsTrack(i: RuntimeInstr, fs: nat -> nat, e: Effect, d: Effect) {
    match e
    case Stop(status) => d == Stop(status)
    case Next(f', t') =>
      d.Next? && d.trace == t' && forall x :: x in WriteSlots(i) ==> Get(d.frame, fs(x)) == Get(f', x)
  }

  lemma ScalarMapped(w: World, i: RuntimeInstr, fo: RuntimeOperand -> RuntimeOperand, fs: nat -> nat, f: Frame,
      g: Frame, t: Trace)
    requires i.Mov? || i.BinOp? || i.BinOpInPlace? || i.Cmp? || i.NormalizeInt?
    requires ReadsTrack(i, fo, fs, f, g)
    ensures EffectsTrack(i, fs, Exec(w, i, f, t), Exec(w, MapInstr(i, fo, fs), g, t))
  {
    hide EvaluateBinop;
    hide EvaluateCmp;
    hide Normalize;
    ScalarReads(i, fo, fs, f, g);
    hide ReadsTrack;
    hide Eval;
    match i
    case Mov(_, _) =>
    case BinOp(_, _, _, _) =>
    case BinOpInPlace(_, _, _) =>
    case Cmp(_, _, _, _) =>
    case NormalizeInt(_, _, _) =>
  }

  lemma ScalarReads(i: RuntimeInstr, fo: RuntimeOperand -> RuntimeOperand, fs: nat -> nat, f: Frame, g: Frame)
    requires ReadsTrack(i, fo, fs, f, g)
    ensures i.Mov? ==> Eval(fo(i.src), g) == Eval(i.src, f)
    ensures i.BinOp? || i.Cmp? ==> Eval(fo(i.lhs), g) == Eval(i.lhs, f) && Eval(fo(i.rhs), g) == Eval(i.rhs, f)
    ensures i.BinOpInPlace? ==> Get(g, fs(i.dst)) == Get(f, i.dst) && Eval(fo(i.rhs), g) == Eval(i.rhs, f)
    ensures i.NormalizeInt? ==> Get(g, fs(i.dst)) == Get(f, i.dst)
  {
    hide Eval;
    assert i.Mov? ==> i.src in Operands(i);
    assert i.BinOp? || i.Cmp? ==> i.lhs in Operands(i) && i.rhs in Operands(i);
    assert i.BinOpInPlace? ==> i.rhs in Operands(i) && i.dst in DirectReads(i);
    assert i.NormalizeInt? ==> i.dst in DirectReads(i);
  }

  lemma SwapMapped(w: World, i: RuntimeInstr, fo: RuntimeOperand -> RuntimeOperand, fs: nat -> nat, f: Frame, g: Frame,
      t: Trace)
    requires i.CompareSwap?
    requires ReadsTrack(i, fo, fs, f, g) && WritesApart(i, fs)
    ensures EffectsTrack(i, fs, Exec(w, i, f, t), Exec(w, MapInstr(i, fo, fs), g, t))
  {
    hide InOrder;
    SwapReads(i, fo, fs, f, g);
    hide ReadsTrack;
    hide WritesApart;
    var CompareSwap(left, right, signed) := i;
    if !InOrder(Get(f, left), Get(f, right), signed) {
      var f' := f[left := Get(f, right)][right := Get(f, left)];
      var g' := g[fs(left) := Get(g, fs(right))][fs(right) := Get(g, fs(left))];
      assert Exec(w, MapInstr(i, fo, fs), g, t) == Next(g', t);
      assert Get(g', fs(left)) == Get(f', left) && Get(g', fs(right)) == Get(f', right);
    }
  }

  lemma SwapReads(i: RuntimeInstr, fo: RuntimeOperand -> RuntimeOperand, fs: nat -> nat, f: Frame, g: Frame)
    requires i.CompareSwap? && ReadsTrack(i, fo, fs, f, g) && WritesApart(i, fs)
    ensures Get(g, fs(i.left)) == Get(f, i.left) && Get(g, fs(i.right)) == Get(f, i.right)
    ensures fs(i.left) == fs(i.right) ==> i.left == i.right
  {
    assert i.left in DirectReads(i) && i.right in DirectReads(i);
    assert i.left in WriteSlots(i) && i.right in WriteSlots(i);
  }

  lemma LoadMapped(w: World, i: RuntimeInstr, fo: RuntimeOperand -> RuntimeOperand, fs: nat -> nat, f: Frame, g: Frame,
      t: Trace)
    requires i.LoadIndex?
    requires ReadsTrack(i, fo, fs, f, g) && WritesApart(i, fs)
    ensures EffectsTrack(i, fs, Exec(w, i, f, t), Exec(w, MapInstr(i, fo, fs), g, t))
  {
    assert i.index in Operands(i);
    var k := Eval(i.index, f);
    if k < |i.base_slots| {
      assert i.base_slots[k] in DirectReads(i);
    }
  }

  lemma StoreMapped(w: World, i: RuntimeInstr, fo: RuntimeOperand -> RuntimeOperand, fs: nat -> nat, f: Frame, g: Frame,
      t: Trace)
    requires i.StoreIndex?
    requires ReadsTrack(i, fo, fs, f, g) && WritesApart(i, fs)
    ensures EffectsTrack(i, fs, Exec(w, i, f, t), Exec(w, MapInstr(i, fo, fs), g, t))
  {
    assert i.index in Operands(i) && i.src in Operands(i);
    var k := Eval(i.index, f);
    if k < |i.base_slots| {
      var x, v := i.base_slots[k], Eval(i.src, f);
      assert x in WriteSlots(i);
      var f', g' := f[x := v], g[fs(x) := v];
      assert Exec(w, i, f, t) == Next(f', t) && Exec(w, MapInstr(i, fo, fs), g, t) == Next(g', t);
      forall y | y in WriteSlots(i)
        ensures Get(g', fs(y)) == Get(f', y)
      {
        assert y in DirectReads(i);
        assert fs(y) == fs(x) ==> y == x;
      }
    }
  }

  /** Renaming what an instruction touches, consistently with where the values are, renames its
      effect and nothing else. */
  lemma ExecMapped(w: World, i: RuntimeInstr, fo: RuntimeOperand -> RuntimeOperand, fs: nat -> nat, f: Frame, g: Frame,
      t: Trace)
    requires !IsControl(i) && ReadsTrack(i, fo, fs, f, g) && WritesApart(i, fs)
    ensures !IsControl(MapInstr(i, fo, fs))
    ensures EffectsTrack(i, fs, Exec(w, i, f, t), Exec(w, MapInstr(i, fo, fs), g, t))
  {
    match i
    case LoadSeed(_, _, _) =>
    case PrintConst(_) =>
    case PrintInt(value, _, _) => assert value in Operands(i);
    case Foreign(_, _, a, b, c) => assert a in Operands(i) && b in Operands(i) && c in Operands(i);
    case CompareSwap(_, _, _) => SwapMapped(w, i, fo, fs, f, g, t);
    case LoadIndex(_, _, _, _) => LoadMapped(w, i, fo, fs, f, g, t);
    case StoreIndex(_, _, _, _) => StoreMapped(w, i, fo, fs, f, g, t);
    case _ => ScalarMapped(w, i, fo, fs, f, g, t);
  }

  /** The renamed instruction writes exactly the renamed slots. */
  lemma WritesMapped(i: RuntimeInstr, fo: RuntimeOperand -> RuntimeOperand, fs: nat -> nat, y: nat)
    ensures y in WriteSlots(MapInstr(i, fo, fs)) <==> exists x :: x in WriteSlots(i) && fs(x) == y
  {
    if i.StoreIndex? {
      if y in MapSlots(i.base_slots, fs) {
        var k :| 0 <= k < |i.base_slots| && MapSlots(i.base_slots, fs)[k] == y;
        assert i.base_slots[k] in WriteSlots(i);
      }
      if x :| x in WriteSlots(i) && fs(x) == y {
        var k :| 0 <= k < |i.base_slots| && i.base_slots[k] == x;
        assert MapSlots(i.base_slots, fs)[k] == y;
      }
    } else {
      assert forall x :: x in WriteSlots(i) ==> fs(x) in WriteSlots(MapInstr(i, fo, fs));
    }
  }

  lemma TakenMapped(i: RuntimeInstr, fo: RuntimeOperand -> RuntimeOperand, fs: nat -> nat, f: Frame, g: Frame)
    requires IsControl(i) && ReadsTrack(i, fo, fs, f, g)
    ensures IsControl(MapInstr(i, fo, fs)) && Taken(MapInstr(i, fo, fs), g) == Taken(i, f)
    ensures i.Exit? ==> Eval(fo(i.code), g) == Eval(i.code, f)
  {
    hide EvaluateCmp;
    match i
    case JumpIfZero(cond, _) => assert cond in DirectReads(i);
    case JumpIfCmpFalse(_, lhs, rhs, _) => assert lhs in Operands(i) && rhs in Operands(i);
    case Exit(code) => assert code in Operands(i);
    case _ =>
  }

  /** Two frames that agree on what an instruction reads give it the same effect. */
  lemma ExecFootprint(w: World, i: RuntimeInstr, f: Frame, g: Frame, t: Trace)
    requires !IsControl(i)
    requires forall x :: x in ReadSlots(i) ==> Get(f, x) == Get(g, x)
    ensures match Exec(w, i, f, t)
      case Stop(status) => Exec(w, i, g, t) == Stop(status)
      case Next(f', t') =>
        && Exec(w, i, g, t).Next? && Exec(w, i, g, t).trace == t'
        && (forall x :: x in WriteSlots(i) ==> Get(Exec(w, i, g, t).frame, x) == Get(f', x))
        && (forall x :: x !in WriteSlots(i) ==> Get(Exec(w, i, g, t).frame, x) == Get(g, x) && Get(f', x) == Get(f, x))
  {
    hide Exec;
    var fo := (o: RuntimeOperand) => o;
    var fs := (x: nat) => x;
    MapIdentity(i, fo, fs);
    forall o | o in Operands(i)
      ensures Eval(fo(o), g) == Eval(o, f)
    {
      if o.Slot? {
        assert o.slot in ReadSlots(i);
      }
    }
    ExecMapped(w, i, fo, fs, f, g, t);
    if Exec(w, i, f, t).Next? {
      ExecWrites(w, i, f, t);
      ExecWrites(w, i, g, t);
    }
  }

  lemma TakenFootprint(i: RuntimeInstr, f: Frame, g: Frame)
    requires IsControl(i)
    requires forall x :: x in ReadSlots(i) ==> Get(f, x) == Get(g, x)
    ensures Taken(i, g) == Taken(i, f) && (i.Exit? ==> Eval(i.code, g) == Eval(i.code, f))
  {
    var fo := (o: RuntimeOperand) => o;
    var fs := (x: nat) => x;
    MapIdentity(i, fo, fs);
    forall o | o in Operands(i)
      ensures Eval(fo(o), g) == Eval(o, f)
    {
      if o.Slot? {
        assert o.slot in ReadSlots(i);
      }
    }
    TakenMapped(i, fo, fs, f, g);
  }

  // ----- one step of the machine -----

  /** A control instruction reads its operands and changes no slot. */
  lemma ControlSame(w: World, p: RuntimeProgram, s: State, h: Frame)
    requires s.status == Running && s.pc < |p.instrs| && IsControl(p.instrs[s.pc])
    requires forall x :: x in ReadSlots(p.instrs[s.pc]) ==> Get(h, x) == Get(s.frame, x)
    ensures Step(w, p, s).frame == s.frame && Step(w, p, s.(frame := h)) == Step(w, p, s).(frame := h)
    ensures WriteSlots(p.instrs[s.pc]) == []
  {
    TakenFootprint(p.instrs[s.pc], s.frame, h);
    hide Taken;
    hide ReadSlots;
  }

  lemma StepPlain(w: World, p: RuntimeProgram, s: State)
    requires s.status == Running && s.pc < |p.instrs| && !IsControl(p.instrs[s.pc])
    ensures Step(w, p, s) == Advance(s, Exec(w, p.instrs[s.pc], s.frame, s.trace))
  {
    hide Exec;
  }

  // ----- scalar instructions -----

  predicate IsScalar(i: RuntimeInstr) {
    i.Mov? || i.BinOp? || i.BinOpInPlace? || i.Cmp? || i.NormalizeInt?
  }

  /** The value a scalar instruction computes; `None` if it traps. */
  function ScalarValue(i: RuntimeInstr, f: Frame): Option<u64>
    requires IsScalar(i)
  {
    match i
    case Mov(_, src) => Some(Eval(src, f))
    case BinOp(_, op, lhs, rhs) => EvaluateBinop(op, Eval(lhs, f), Eval(rhs, f))
    case BinOpInPlace(dst, op, rhs) => EvaluateBinop(op, Get(f, dst), Eval(rhs, f))
    case Cmp(_, cmp, lhs, rhs) => Some(BoolWord(EvaluateCmp(cmp, Eval(lhs, f), Eval(rhs, f))))
    case NormalizeInt(dst, signed, bits) => Some(Normalize(Get(f, dst), signed, bits))
  }

  /** A scalar instruction writes its value to its destination, or traps; it outputs nothing. */
  lemma ExecScalar(w: World, i: RuntimeInstr, f: Frame, t: Trace)
    requires IsScalar(i)
    ensures !IsControl(i) && WriteSlots(i) == [i.dst]
    ensures Exec(w, i, f, t) == Arith(i.dst, ScalarValue(i, f), f, t)
  {
    hide EvaluateBinop;
    hide EvaluateCmp;
    hide Normalize;
  }

  lemma ScalarFootprint(i: RuntimeInstr, f: Frame, g: Frame)
    requires IsScalar(i) && forall x :: x in ReadSlots(i) ==> Get(f, x) == Get(g, x)
    ensures ScalarValue(i, g) == ScalarValue(i, f)
  {
    hide EvaluateBinop;
    hide EvaluateCmp;
    hide Normalize;
    forall o | o in Operands(i)
      ensures Eval(o, g) == Eval(o, f)
    {
      assert o.Slot? ==> o.slot in ReadSlots(i);
    }
    match i
    case Mov(_, src) => assert src in Operands(i);
    case BinOp(_, _, lhs, rhs) => assert lhs in Operands(i) && rhs in Operands(i);
    case Cmp(_, _, lhs, rhs) => assert lhs in Operands(i) && rhs in Operands(i);
    case BinOpInPlace(dst, _, rhs) => assert rhs in Operands(i) && dst in ReadSlots(i);
    case NormalizeInt(dst, _, _) => assert dst in ReadSlots(i);
  }

  // ----- runs -----

  lemma {:induction false} RunSplit(w: World, p: RuntimeProgram, s: State, m: nat, n: nat)
    ensures Run(w, p, s, m + n) == Run(w, p, Run(w, p, s, m), n)
  {
    hide Step;
    if n > 0 {
      RunSplit(w, p, s, m, n - 1);
      assert m + n - 1 == m + (n - 1);
    }
  }

  lemma {:induction false} RunStopped(w: World, p: RuntimeProgram, s: State, n: nat)
    requires s.status != Running
    ensures Run(w, p, s, n) == s
  {
    if n > 0 {
      RunStopped(w, p, s, n - 1);
    }
  }

  lemma SameBehaviourReflexive(p: RuntimeProgram)
    ensures SameBehaviour(p, p)
  {
    hide Run;
    forall w: World, f: Frame, n: nat
      ensures Matched(w, p, f, Obs(Run(w, p, Start(f), n)))
    {}
  }

  lemma SimulatesTransitive(p: RuntimeProgram, q: RuntimeProgram, r: RuntimeProgram)
    requires Simulates(p, q) && Simulates(q, r)
    ensures Simulates(p, r)
  {
    hide Run;
    forall w: World, f: Frame, n: nat
      ensures Matched(w, r, f, Obs(Run(w, p, Start(f), n)))
    {
      assert Matched(w, q, f, Obs(Run(w, p, Start(f), n)));
      var m: nat :| Obs(Run(w, q, Start(f), m)) == Obs(Run(w, p, Start(f), n));
      assert Matched(w, r, f, Obs(Run(w, q, Start(f), m)));
    }
  }

  lemma SameBehaviourTransitive(p: RuntimeProgram, q: RuntimeProgram, r: RuntimeProgram)
    requires SameBehaviour(p, q) && SameBehaviour(q, r)
    ensures SameBehaviour(p, r)
  {
    SimulatesTransitive(p, q, r);
    SimulatesTransitive(r, q, p);
  }
}
