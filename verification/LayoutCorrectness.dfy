/** The laid-out program simulates the original block for block; and exactly when its fall-throughs
    are right. */
module LayoutCorrectness {
  import opened Words
  import opened Ir
  import opened Semantics
  import opened Execution
  import opened Blocks
  import opened Permutations
  import opened Layout

  /** The new place of a block; of the end of the program for `None`. */
  function Place(starts: map<nat, nat>, q: RuntimeProgram, b: Option<nat>): nat {
    if b.Some? && b.value in starts then starts[b.value] else |q.instrs|
  }

  /** `pc'` is the new number of instruction `pc`. */
  ghost predicate Moved(g: BlockGraph, starts: map<nat, nat>, q: RuntimeProgram, pc: nat, pc': nat) {
    if pc < |g.block_of| then
      var b := g.block_of[pc];
      b < |g.starts| && b in starts && g.starts[b] <= pc && pc' == starts[b] + (pc - g.starts[b])
    else pc' >= |q.instrs|
  }

  ghost predicate SmallEnough(p: RuntimeProgram) {
    |p.instrs| < BLOCK_MARKER_BASE
  }

  // ----- where things are -----

  lemma CodeOfBlock(p: RuntimeProgram, g: BlockGraph, order: seq<nat>, starts: map<nat, nat>, q: RuntimeProgram, k: nat,
      j: nat)
    requires LaidOut(p, g, order, starts, q) && k < |order| && j < |LayBlock(p, g, order, k)|
    ensures order[k] in starts && starts[order[k]] + j < |q.instrs|
    ensures q.instrs[starts[order[k]] + j] == Resolve(LayBlock(p, g, order, k)[j], starts, |q.instrs|)
  {
    hide LayBlock;
    hide Resolve;
    assert PlacedAt(p, g, order, starts, k) && PlacedBlock(p, g, order, starts, |q.instrs|, q.instrs, k);
    var a, b := Offset(p, g, order, k), Offset(p, g, order, k + 1);
    assert q.instrs[a..b][j] == q.instrs[a + j];
  }

  /** After the code of a block comes the next block of the order, or the end. */
  lemma AfterBlock(p: RuntimeProgram, g: BlockGraph, order: seq<nat>, starts: map<nat, nat>, q: RuntimeProgram, k: nat)
    requires LaidOut(p, g, order, starts, q) && k < |order|
    ensures order[k] in starts
      && starts[order[k]] + |LayBlock(p, g, order, k)| == Place(starts, q, NextInOrder(order, k))
  {
    hide LayBlock;
    assert PlacedAt(p, g, order, starts, k);
    if k + 1 < |order| {
      assert PlacedAt(p, g, order, starts, k + 1);
    }
  }

  lemma Position(p: RuntimeProgram, g: BlockGraph, order: seq<nat>, starts: map<nat, nat>, q: RuntimeProgram, b: nat)
      returns (k: nat)
    requires LaidOut(p, g, order, starts, q) && b < |g.starts|
    ensures k < |order| && order[k] == b && b in starts
  {
    assert b in order;
    k :| k < |order| && order[k] == b;
    assert PlacedAt(p, g, order, starts, k);
  }

  lemma MarkerResolves(p: RuntimeProgram, g: BlockGraph, order: seq<nat>, starts: map<nat, nat>, q: RuntimeProgram,
      b: Option<nat>)
    requires LaidOut(p, g, order, starts, q) && SmallEnough(p) && (b.Some? ==> b.value < |g.starts|)
    ensures ResolveTarget(BlockMarker(b), starts, |q.instrs|) == Place(starts, q, b)
  {
    if b.Some? {
      BlockNonempty(g, p, b.value);
      Ordered(g.starts, 0, b.value);
      StartsGrow(g.starts, b.value);
    }
  }

  lemma {:induction false} StartsGrow(starts: seq<nat>, k: nat)
    requires Increasing(starts) && k < |starts|
    ensures k <= starts[k]
  {
    if k > 0 {
      StartsGrow(starts, k - 1);
    }
  }

  lemma TargetMoves(p: RuntimeProgram, g: BlockGraph, order: seq<nat>, starts: map<nat, nat>, q: RuntimeProgram, i: nat)
    requires LaidOut(p, g, order, starts, q) && i < |p.instrs| && TargetOf(p.instrs[i]).Some?
    ensures var t := TargetOf(p.instrs[i]).value;
      Moved(g, starts, q, t, Place(starts, q, BlockForTarget(g, t)))
        && (BlockForTarget(g, t).Some? ==> BlockForTarget(g, t).value < |g.starts|)
  {
    var t := TargetOf(p.instrs[i]).value;
    if t < |p.instrs| {
      StartOfTarget(p, g, i);
      var k := Position(p, g, order, starts, q, g.block_of[t]);
    }
  }

  lemma FallMoves(p: RuntimeProgram, g: BlockGraph, order: seq<nat>, starts: map<nat, nat>, q: RuntimeProgram, b: nat)
    requires LaidOut(p, g, order, starts, q) && b < |g.starts|
    ensures Moved(g, starts, q, g.End(b), Place(starts, q, FallThrough(g, b)))
      && (FallThrough(g, b).Some? ==> FallThrough(g, b).value < |g.starts|)
    ensures FallThrough(g, b).None? <==> b == |g.starts| - 1
  {
    BlockNonempty(g, p, b);
    if b + 1 < |g.starts| {
      BlockNonempty(g, p, b + 1);
      var k := Position(p, g, order, starts, q, b + 1);
    }
  }

  // ----- when falling out of a block is right -----

  /** The one fall-through that is not repaired is the one past the end: the last block must end in an
      unconditional transfer, or stay last. */
  ghost predicate EndStaysLast(p: RuntimeProgram, g: BlockGraph, order: seq<nat>)
    requires |p.instrs| > 0
  {
    IsTerminal(p.instrs[|p.instrs| - 1]) || (order != [] && order[|order| - 1] == |g.starts| - 1)
  }

  /** Where control goes that leaves the `k`-th laid-out block without a taken jump: over the repair
      jump if there is one, else into whatever comes next. */
  function FallsTo(p: RuntimeProgram, g: BlockGraph, order: seq<nat>, k: nat): Option<nat>
    requires g.Cuts(p) && |p.instrs| > 0 && k < |order| && order[k] < |g.starts|
  {
    BlockNonempty(g, p, order[k]);
    var last := p.instrs[g.End(order[k]) - 1];
    if Repair(g, last, order[k], NextInOrder(order, k)) != [] then FallThrough(g, order[k]) else NextInOrder(order, k)
  }

  /** Blocks whose last instruction passes control on, and was not turned around. */
  predicate MayFall(p: RuntimeProgram, g: BlockGraph, order: seq<nat>, k: nat)
    requires g.Cuts(p) && |p.instrs| > 0 && k < |order| && order[k] < |g.starts|
  {
    BlockNonempty(g, p, order[k]);
    var last := p.instrs[g.End(order[k]) - 1];
    !IsTerminal(last) && !Inverted(g, last, order[k], NextInOrder(order, k))
  }

  /** Every laid-out block falls to where the original falls exactly when the last block is safe. */
  lemma FallThroughsRight(p: RuntimeProgram, g: BlockGraph, order: seq<nat>)
    requires g.Cuts(p) && |p.instrs| > 0 && IsPermutation(order, |g.starts|) && Within(order, |g.starts|)
    ensures EndStaysLast(p, g, order) <==>
      forall k :: 0 <= k < |order| && MayFall(p, g, order, k) ==> FallsTo(p, g, order, k) == FallThrough(g, order[k])
  {
    assert |g.starts| - 1 in order;
    var last: nat :| last < |order| && order[last] == |g.starts| - 1;
    BlockNonempty(g, p, order[last]);
    assert g.End(order[last]) == |p.instrs|;
    if EndStaysLast(p, g, order) {
      forall k | 0 <= k < |order| && MayFall(p, g, order, k)
        ensures FallsTo(p, g, order, k) == FallThrough(g, order[k])
      {
        FallRight(p, g, order, k);
      }
    } else {
      assert MayFall(p, g, order, last);
      assert FallsTo(p, g, order, last) == NextInOrder(order, last);
    }
  }

  lemma FallRight(p: RuntimeProgram, g: BlockGraph, order: seq<nat>, k: nat)
    requires g.Cuts(p) && |p.instrs| > 0 && Distinct(order) && Within(order, |g.starts|)
    requires EndStaysLast(p, g, order) && k < |order| && MayFall(p, g, order, k)
    ensures FallsTo(p, g, order, k) == FallThrough(g, order[k])
  {
    var b := order[k];
    BlockNonempty(g, p, b);
    if b + 1 == |g.starts| {
      assert g.End(b) == |p.instrs|;
      assert k == |order| - 1;
    } else {
      BlockNonempty(g, p, b + 1);
    }
  }

  // ----- the simulation -----

  ghost predicate Related(g: BlockGraph, starts: map<nat, nat>, q: RuntimeProgram, s: State, t: State) {
    && t == s.(pc := t.pc) && s.stack == []
    && Moved(g, starts, q, s.pc, t.pc)
  }

  /** Everything the simulation needs to know about a layout. */
  ghost predicate GoodLayout(p: RuntimeProgram, g: BlockGraph, order: seq<nat>, starts: map<nat, nat>,
      q: RuntimeProgram)
  {
    LaidOut(p, g, order, starts, q) && SmallEnough(p) && !HasCall(p) && EndStaysLast(p, g, order)
  }

  /** One step of `p` is one step of `q`, or two of which the second, a repair jump, shows nothing. */
  ghost predicate StepMatched(w: World, g: BlockGraph, starts: map<nat, nat>, q: RuntimeProgram, s': State, t: State) {
    var t' := Step(w, q, t);
    Related(g, starts, q, s', t') || (Related(g, starts, q, s', Step(w, q, t')) && Obs(t') == Obs(s'))
  }

  lemma InsideBlock(p: RuntimeProgram, g: BlockGraph, i: nat)
    requires g.Cuts(p) && i < |p.instrs| && i + 1 < g.End(g.block_of[i])
    ensures i + 1 < |p.instrs| && g.block_of[i + 1] == g.block_of[i] && !IsControl(p.instrs[i])
  {
    BlockNonempty(g, p, g.block_of[i]);
    BlockUnique(g, p, g.block_of[i], i + 1);
    SameBlockOf(g, p, i, i + 1);
    assert !IsLeader(p, i + 1);
  }

  lemma InsideCode(p: RuntimeProgram, g: BlockGraph, order: seq<nat>, starts: map<nat, nat>, q: RuntimeProgram, i: nat,
      i': nat)
    requires LaidOut(p, g, order, starts, q) && i < |p.instrs| && i + 1 < g.End(g.block_of[i])
      && Moved(g, starts, q, i, i')
    requires !IsControl(p.instrs[i])
    ensures i' < |q.instrs| && q.instrs[i'] == p.instrs[i]
  {
    var b := g.block_of[i];
    BlockNonempty(g, p, b);
    var k := Position(p, g, order, starts, q, b);
    CodeOfBlock(p, g, order, starts, q, k, i - g.starts[b]);
  }

  lemma StepInside(w: World, p: RuntimeProgram, g: BlockGraph, order: seq<nat>, starts: map<nat, nat>,
      q: RuntimeProgram, s: State, t: State)
    requires GoodLayout(p, g, order, starts, q) && Related(g, starts, q, s, t)
    requires s.status == Running && s.pc < |p.instrs| && s.pc + 1 < g.End(g.block_of[s.pc])
    ensures Related(g, starts, q, Step(w, p, s), Step(w, q, t))
  {
    hide Exec;
    InsideBlock(p, g, s.pc);
    InsideCode(p, g, order, starts, q, s.pc, t.pc);
    hide GoodLayout;
    hide IsControl;
    StepPlain(w, p, s);
    StepPlain(w, q, t);
    hide Step;
  }

  /** After a terminator that did not jump, `q` goes where `p`'s block falls. */
  lemma Falls(w: World, p: RuntimeProgram, g: BlockGraph, order: seq<nat>, starts: map<nat, nat>, q: RuntimeProgram,
      k: nat, s': State, t': State)
    requires GoodLayout(p, g, order, starts, q) && k < |order| && MayFall(p, g, order, k)
    requires s'.status == Running && s'.stack == [] && s'.pc == g.End(order[k])
    requires order[k] in starts && t' == s'.(pc := t'.pc)
      && t'.pc + g.starts[order[k]] == starts[order[k]] + g.End(order[k])
    ensures Related(g, starts, q, s', t') || (Related(g, starts, q, s', Step(w, q, t')) && Obs(t') == Obs(s'))
  {
    var b := order[k];
    BlockNonempty(g, p, b);
    var last := p.instrs[g.End(b) - 1];
    var repair := Repair(g, last, b, NextInOrder(order, k));
    FallRight(p, g, order, k);
    FallMoves(p, g, order, starts, q, b);
    AfterBlock(p, g, order, starts, q, k);
    if repair != [] {
      CodeOfBlock(p, g, order, starts, q, k, g.End(b) - g.starts[b]);
      MarkerResolves(p, g, order, starts, q, FallThrough(g, b));
      assert q.instrs[t'.pc] == Jump(Place(starts, q, FallThrough(g, b)));
    }
  }

  lemma Inverts(cmp: RuntimeCmpOp, a: u64, b: u64)
    ensures EvaluateCmp(InvertCmp(cmp), a, b) == !EvaluateCmp(cmp, a, b)
  {}

  /** The laid-out branch jumps exactly when the original one does, or exactly when it does not. */
  lemma BranchTaken(g: BlockGraph, last: RuntimeInstr, b: nat, next: Option<nat>, starts: map<nat, nat>, end: nat,
      f: Frame)
    requires b < |g.starts| && IsBranch(last)
    ensures var j := Resolve(Terminator(g, last, b, next), starts, end);
      && IsBranch(j)
      && Taken(j, f) == (if Inverted(g, last, b, next) then !Taken(last, f) else Taken(last, f))
      && j.target == ResolveTarget(BlockMarker(if Inverted(g, last, b, next)
        then FallThrough(g, b) else BlockForTarget(g, last.target)), starts, end)
  {
    hide EvaluateCmp;
    if last.JumpIfCmpFalse? {
      Inverts(last.cmp, Eval(last.lhs, f), Eval(last.rhs, f));
    } else {
      assert EvaluateCmp(Eq, Get(f, last.cond_slot), 0) == (Get(f, last.cond_slot) == 0) by {
        CompareEqual(Get(f, last.cond_slot), 0);
      }
    }
  }

  lemma CompareEqual(a: u64, b: u64)
    ensures EvaluateCmp(Eq, a, b) == (a == b)
  {}

  lemma StepBranch(w: World, p: RuntimeProgram, g: BlockGraph, order: seq<nat>, starts: map<nat, nat>,
      q: RuntimeProgram, k: nat, s: State, t: State)
    requires GoodLayout(p, g, order, starts, q) && Related(g, starts, q, s, t) && s.status == Running
    requires k < |order| && order[k] in starts && s.pc == g.End(order[k]) - 1 && s.pc < |p.instrs|
      && g.block_of[s.pc] == order[k]
    requires IsBranch(p.instrs[s.pc])
    ensures StepMatched(w, g, starts, q, Step(w, p, s), t)
  {
    var b, last, next := order[k], p.instrs[s.pc], NextInOrder(order, k);
    BlockNonempty(g, p, b);
    CodeOfBlock(p, g, order, starts, q, k, s.pc - g.starts[b]);
    BranchTaken(g, last, b, next, starts, |q.instrs|, s.frame);
    TargetMoves(p, g, order, starts, q, s.pc);
    FallMoves(p, g, order, starts, q, b);
    AfterBlock(p, g, order, starts, q, k);
    MarkerResolves(p, g, order, starts, q, FallThrough(g, b));
    MarkerResolves(p, g, order, starts, q, BlockForTarget(g, last.target));
    hide Taken;
    hide Terminator;
    hide Resolve;
    hide BlockMarker;
    hide LayBlock;
    var s', t' := Step(w, p, s), Step(w, q, t);
    StepOfBranch(w, p, s);
    StepOfBranch(w, q, t);
    hide Step;
    hide Moved;
    hide LaidOut;
    hide Inverted;
    if !Inverted(g, last, b, next) && !Taken(last, s.frame) {
      Falls(w, p, g, order, starts, q, k, s', t');
    }
  }

  lemma StepOfBranch(w: World, p: RuntimeProgram, s: State)
    requires s.status == Running && s.pc < |p.instrs| && IsBranch(p.instrs[s.pc])
    ensures Step(w, p, s) == s.(pc := if Taken(p.instrs[s.pc], s.frame) then p.instrs[s.pc].target else s.pc + 1)
  {
    hide Taken;
  }

  lemma StepLast(w: World, p: RuntimeProgram, g: BlockGraph, order: seq<nat>, starts: map<nat, nat>, q: RuntimeProgram,
      k: nat, s: State, t: State)
    requires GoodLayout(p, g, order, starts, q) && Related(g, starts, q, s, t) && s.status == Running
    requires k < |order| && order[k] in starts && s.pc == g.End(order[k]) - 1 && s.pc < |p.instrs|
      && g.block_of[s.pc] == order[k]
    requires !IsBranch(p.instrs[s.pc])
    ensures StepMatched(w, g, starts, q, Step(w, p, s), t)
  {
    hide Exec;
    var b, last, next := order[k], p.instrs[s.pc], NextInOrder(order, k);
    BlockNonempty(g, p, b);
    CodeOfBlock(p, g, order, starts, q, k, s.pc - g.starts[b]);
    assert !last.Call?;
    if last.Jump? {
      TargetMoves(p, g, order, starts, q, s.pc);
      MarkerResolves(p, g, order, starts, q, BlockForTarget(g, last.target));
    } else if !IsControl(last) {
      assert q.instrs[t.pc] == last;
      StepPlain(w, p, s);
      StepPlain(w, q, t);
      if Exec(w, last, s.frame, s.trace).Next? {
        Falls(w, p, g, order, starts, q, k, Step(w, p, s), Step(w, q, t));
      }
    } else {
      assert q.instrs[t.pc] == last;
    }
  }

  lemma StepSimulated(w: World, p: RuntimeProgram, g: BlockGraph, order: seq<nat>, starts: map<nat, nat>,
      q: RuntimeProgram, s: State, t: State)
    requires GoodLayout(p, g, order, starts, q) && Related(g, starts, q, s, t)
    ensures StepMatched(w, g, starts, q, Step(w, p, s), t)
  {
    hide StepAt;
    if s.status == Running && s.pc < |p.instrs| {
      var b := g.block_of[s.pc];
      BlockNonempty(g, p, b);
      if s.pc + 1 < g.End(b) {
        StepInside(w, p, g, order, starts, q, s, t);
      } else {
        var k := Position(p, g, order, starts, q, b);
        if IsBranch(p.instrs[s.pc]) {
          StepBranch(w, p, g, order, starts, q, k, s, t);
        } else {
          StepLast(w, p, g, order, starts, q, k, s, t);
        }
      }
    }
  }

  lemma StartsRelated(p: RuntimeProgram, g: BlockGraph, order: seq<nat>, starts: map<nat, nat>, q: RuntimeProgram,
      f: Frame)
    requires GoodLayout(p, g, order, starts, q)
    ensures Related(g, starts, q, Start(f), Start(f))
  {
    assert PlacedAt(p, g, order, starts, 0);
    BlockNonempty(g, p, 0);
  }

  lemma {:induction false} Forward(w: World, p: RuntimeProgram, g: BlockGraph, order: seq<nat>, starts: map<nat, nat>,
      q: RuntimeProgram, f: Frame, n: nat) returns (m: nat)
    requires GoodLayout(p, g, order, starts, q)
    ensures Related(g, starts, q, Run(w, p, Start(f), n), Run(w, q, Start(f), m))
  {
    hide Step;
    hide GoodLayout;
    if n == 0 {
      m := 0;
      StartsRelated(p, g, order, starts, q, f);
    } else {
      m := Forward(w, p, g, order, starts, q, f, n - 1);
      var s, t := Run(w, p, Start(f), n - 1), Run(w, q, Start(f), m);
      StepSimulated(w, p, g, order, starts, q, s, t);
      assert Run(w, q, Start(f), m + 1) == Step(w, q, t);
      m := if Related(g, starts, q, Step(w, p, s), Step(w, q, t)) then m + 1 else m + 2;
    }
  }

  /** `q` after `m` steps is related to `p` after `n`, or will be after one more step that shows nothing. */
  ghost predicate Caught(w: World, p: RuntimeProgram, g: BlockGraph, starts: map<nat, nat>, q: RuntimeProgram, f: Frame,
      n: nat, m: nat)
  {
    var s, t := Run(w, p, Start(f), n), Run(w, q, Start(f), m);
    Related(g, starts, q, s, t) || (Related(g, starts, q, s, Step(w, q, t)) && Obs(t) == Obs(s))
  }

  lemma {:induction false} Backward(w: World, p: RuntimeProgram, g: BlockGraph, order: seq<nat>, starts: map<nat, nat>,
      q: RuntimeProgram, f: Frame, m: nat) returns (n: nat)
    requires GoodLayout(p, g, order, starts, q)
    ensures Caught(w, p, g, starts, q, f, n, m)
  {
    hide Step;
    hide GoodLayout;
    if m == 0 {
      n := 0;
      StartsRelated(p, g, order, starts, q, f);
    } else {
      n := Backward(w, p, g, order, starts, q, f, m - 1);
      var s, t := Run(w, p, Start(f), n), Run(w, q, Start(f), m - 1);
      if Related(g, starts, q, s, t) {
        StepSimulated(w, p, g, order, starts, q, s, t);
        n := n + 1;
      }
    }
  }

  /** Block layout preserves behaviour when the last block is safe. */
  lemma LayoutPreservesBehaviour(p: RuntimeProgram, g: BlockGraph, order: seq<nat>, starts: map<nat, nat>,
      q: RuntimeProgram)
    requires LaidOut(p, g, order, starts, q) && SmallEnough(p) && !HasCall(p)
    requires EndStaysLast(p, g, order)
    ensures SameBehaviour(p, q)
  {
    hide Run;
    forall w: World, f: Frame, n: nat
      ensures Matched(w, q, f, Obs(Run(w, p, Start(f), n)))
    {
      var m := Forward(w, p, g, order, starts, q, f, n);
    }
    forall w: World, f: Frame, m: nat
      ensures Matched(w, p, f, Obs(Run(w, q, Start(f), m)))
    {
      var n := Backward(w, p, g, order, starts, q, f, m);
    }
  }
}
