/** `build_block_graph`: basic blocks and their successor edges, and the proof that every run of the
    program follows them. */
module Blocks {
  import opened Words
  import opened Ir
  import opened Semantics
  import opened Execution

  // ----- sorted vectors of a BTreeSet -----

  function SortedBelow(s: set<nat>, n: nat): (r: seq<nat>)
    ensures forall x :: x in r <==> x in s && x < n
    ensures Increasing(r)
  {
    if n == 0 then [] else
      var r := SortedBelow(s, n - 1);
      assert forall i :: 0 <= i < |r| ==> r[i] in r;
      r + (if n - 1 in s then [n - 1] else [])
  }

  ghost predicate Increasing(r: seq<nat>) {
    forall i, j :: 0 <= i < j < |r| ==> r[i] < r[j]
  }

  lemma Ordered(r: seq<nat>, i: int, j: int)
    requires Increasing(r)
    ensures 0 <= i <= j < |r| ==> r[i] <= r[j]
  {}

  // ----- static control flow -----

  /** Block leaders: the first instruction, every target, and whatever follows a control instruction. */
  ghost predicate IsLeader(p: RuntimeProgram, i: nat) {
    i < |p.instrs| && (i == 0 || IsControl(p.instrs[i - 1]) || IsTarget(p, i, |p.instrs|))
  }

  /** One of the first `n` instructions has target `i`. */
  ghost predicate IsTarget(p: RuntimeProgram, i: nat, n: nat)
    requires n <= |p.instrs|
  {
    exists j :: 0 <= j < n && TargetOf(p.instrs[j]) == Some(i)
  }

  /** `j` is where one of the first `n` instructions, a call, returns to. */
  predicate IsContinuation(p: RuntimeProgram, j: nat, n: nat)
    requires n <= |p.instrs|
  {
    0 < j <= n && p.instrs[j - 1].Call?
  }

  /** Control may pass from instruction `i` straight to instruction `j`. */
  predicate StaticNext(p: RuntimeProgram, i: nat, j: nat)
    requires i < |p.instrs|
  {
    && j < |p.instrs|
    && match p.instrs[i]
       case Jump(target) => j == target
       case JumpIfZero(_, target) => j == target || j == i + 1
       case JumpIfCmpFalse(_, _, _, target) => j == target || j == i + 1
       case Call(target) => j == target || j == i + 1
       case Return => IsContinuation(p, j, |p.instrs|)
       case Exit(_) => false
       case _ => j == i + 1
  }

  function BlockEnd(starts: seq<nat>, len: nat, b: nat): nat
    requires b < |starts|
  {
    if b + 1 < |starts| then starts[b + 1] else len
  }

  predicate InBlock(starts: seq<nat>, len: nat, b: nat, i: nat) {
    b < |starts| && starts[b] <= i < BlockEnd(starts, len, b)
  }

  datatype BlockGraph = BlockGraph(starts: seq<nat>, block_of: seq<nat>, successors: seq<seq<nat>>) {
    function End(b: nat): nat
      requires b < |starts|
    {
      BlockEnd(starts, |block_of|, b)
    }

    /** Blocks cut the program at its leaders and nowhere else. */
    ghost predicate Cuts(p: RuntimeProgram) {
      && |block_of| == |p.instrs|
      && |starts| > 0 && starts[0] == 0 && Increasing(starts)
      && (forall i :: i in starts <==> i == 0 || IsLeader(p, i))
      && (forall i :: 0 <= i < |block_of| ==> InBlock(starts, |block_of|, block_of[i], i))
    }

    /** There is an edge from `b` to `c` exactly when control may pass from the last instruction of
        `b` to the first of `c`. */
    ghost predicate Valid(p: RuntimeProgram) {
      && Cuts(p)
      && |successors| == |starts|
      && (forall b :: 0 <= b < |starts| ==> Increasing(successors[b]))
      && (forall b, c: nat :: 0 <= b < |starts| ==> (c in successors[b] <==> Edge(p, starts, b, c)))
    }
  }

  ghost predicate Edge(p: RuntimeProgram, starts: seq<nat>, b: nat, c: nat)
    requires b < |starts|
  {
    && c < |starts| && 0 < BlockEnd(starts, |p.instrs|, b) <= |p.instrs|
    && StaticNext(p, BlockEnd(starts, |p.instrs|, b) - 1, starts[c])
  }

  /** Instructions `i` to `j` lie in one block. */
  ghost predicate SameBlock(p: RuntimeProgram, i: nat, j: nat) {
    i <= j < |p.instrs| && forall k :: i < k <= j ==> !IsLeader(p, k)
  }

  lemma BlockUnique(g: BlockGraph, p: RuntimeProgram, b: nat, i: nat)
    requires g.Cuts(p) && b < |g.starts| && g.starts[b] <= i < g.End(b)
    ensures i < |p.instrs| && g.block_of[i] == b
  {
    if b + 1 < |g.starts| {
      assert g.starts[b + 1] in g.starts;
    }
    var c := g.block_of[i];
    Ordered(g.starts, c + 1, b);
    Ordered(g.starts, b + 1, c);
  }

  lemma BlockNonempty(g: BlockGraph, p: RuntimeProgram, b: nat)
    requires g.Cuts(p) && b < |g.starts| && |p.instrs| > 0
    ensures g.starts[b] < g.End(b) <= |p.instrs|
    ensures g.block_of[g.starts[b]] == b && g.block_of[g.End(b) - 1] == b
  {
    assert g.starts[b] in g.starts;
    if b + 1 < |g.starts| {
      assert g.starts[b + 1] in g.starts;
    }
    BlockUnique(g, p, b, g.starts[b]);
    BlockUnique(g, p, b, g.End(b) - 1);
  }

  lemma BlockWithin(p: RuntimeProgram, g: BlockGraph, b: nat)
    requires g.Valid(p) && b < |g.starts|
    ensures g.starts[b] <= g.End(b) <= |p.instrs|
  {
    if |p.instrs| > 0 {
      BlockNonempty(g, p, b);
    } else {
      forall k | 0 <= k < |g.starts|
        ensures g.starts[k] == 0
      {
        assert g.starts[k] in g.starts;
      }
    }
  }

  /** `instr_to_block` tells apart exactly the instructions that a leader separates. */
  lemma SameBlockOf(g: BlockGraph, p: RuntimeProgram, i: nat, j: nat)
    requires g.Cuts(p) && i <= j < |p.instrs|
    ensures g.block_of[i] == g.block_of[j] <==> SameBlock(p, i, j)
  {
    var b := g.block_of[i];
    if g.block_of[j] == b {
      forall k | i < k <= j
        ensures !IsLeader(p, k)
      {
        if IsLeader(p, k) {
          var c :| 0 <= c < |g.starts| && g.starts[c] == k;
          Ordered(g.starts, c, b);
          Ordered(g.starts, b + 1, c);
        }
      }
    } else if SameBlock(p, i, j) {
      assert b + 1 < |g.starts| && g.starts[b + 1] in g.starts;
      if j < g.End(b) {
        BlockUnique(g, p, b, j);
      }
    }
  }

  /** A block is left only at its last instruction, and only for the first one of another block. */
  lemma LeavingBlock(g: BlockGraph, p: RuntimeProgram, i: nat, j: nat)
    requires g.Valid(p) && i < |p.instrs| && StaticNext(p, i, j)
    ensures (j == i + 1 && g.block_of[j] == g.block_of[i]) ||
            (i == g.End(g.block_of[i]) - 1 && j == g.starts[g.block_of[j]]
              && g.block_of[j] in g.successors[g.block_of[i]])
  {
    var b := g.block_of[i];
    BlockNonempty(g, p, b);
    if i + 1 < g.End(b) {
      BlockUnique(g, p, b, i + 1);
      SameBlockOf(g, p, i, i + 1);
      assert !IsLeader(p, i + 1);
    } else {
      assert IsTarget(p, j, |p.instrs|) || j == i + 1 || IsContinuation(p, j, |p.instrs|);
      if j == i + 1 {
        assert b + 1 < |g.starts|;
        BlockNonempty(g, p, b + 1);
        assert g.starts[b + 1] in g.starts;
      } else {
        assert IsLeader(p, j);
        assert j in g.starts;
        var c :| 0 <= c < |g.starts| && g.starts[c] == j;
        BlockNonempty(g, p, c);
      }
      assert j == g.starts[g.block_of[j]];
      assert Edge(p, g.starts, b, g.block_of[j]);
    }
  }

  // ----- the construction -----

  ghost predicate LeaderSoFar(p: RuntimeProgram, i: nat, n: nat)
    requires n <= |p.instrs|
  {
    i < |p.instrs| && (i == 0 || (i <= n && IsControl(p.instrs[i - 1])) || IsTarget(p, i, n))
  }

  method BuildBlockGraph(p: RuntimeProgram) returns (g: BlockGraph)
    ensures g.Valid(p)
  {
    var len := |p.instrs|;
    if len == 0 {
      return BlockGraph([0], [], [[]]);
    }
    var leaders := CollectLeaders(p);
    var starts := SortedBelow(leaders, len);
    assert 0 in starts;
    assert forall k :: 0 <= k < |starts| ==> starts[k] in starts;
    var block_of := NumberBlocks(starts, len);
    g := BlockGraph(starts, block_of, []);
    var continuations := CallContinuations(p, g);
    var successors: seq<seq<nat>> := [];
    for b := 0 to |starts|
      invariant |successors| == b
      invariant forall k :: 0 <= k < b ==> Increasing(successors[k])
      invariant forall k, c: nat :: 0 <= k < b ==> (c in successors[k] <==> Edge(p, starts, k, c))
    {
      var next := BlockSuccessors(p, g, continuations, b);
      successors := successors + [next];
    }
    g := BlockGraph(starts, block_of, successors);
  }

  method CollectLeaders(p: RuntimeProgram) returns (leaders: set<nat>)
    requires |p.instrs| > 0
    ensures forall i: nat :: i in leaders <==> i == 0 || IsLeader(p, i)
  {
    var len := |p.instrs|;
    leaders := {0};
    for idx := 0 to len
      invariant forall i: nat :: i in leaders <==> LeaderSoFar(p, i, idx)
    {
      var instr := p.instrs[idx];
      var target := TargetOf(instr);
      if target.Some? && target.value < len {
        leaders := leaders + {target.value};
      }
      if IsControl(instr) && idx + 1 < len {
        leaders := leaders + {idx + 1};
      }
      forall i: nat
        ensures IsTarget(p, i, idx + 1) <==> IsTarget(p, i, idx) || target == Some(i)
      {
        if IsTarget(p, i, idx) {
          var j :| 0 <= j < idx && TargetOf(p.instrs[j]) == Some(i);
          assert TargetOf(p.instrs[j]) == Some(i);
        }
      }
    }
  }

  method NumberBlocks(starts: seq<nat>, len: nat) returns (block_of: seq<nat>)
    requires |starts| > 0 && starts[0] == 0 && Increasing(starts) && forall k :: 0 <= k < |starts| ==> starts[k] < len
    ensures |block_of| == len && forall i :: 0 <= i < len ==> InBlock(starts, len, block_of[i], i)
  {
    block_of := seq(len, _ => 0);
    for b := 0 to |starts|
      invariant |block_of| == len
      invariant forall i :: 0 <= i < (if b < |starts| then starts[b] else len) ==> InBlock(starts, len, block_of[i], i)
    {
      var end := BlockEnd(starts, len, b);
      for i := starts[b] to end
        invariant |block_of| == len
        invariant forall k :: 0 <= k < i ==> InBlock(starts, len, block_of[k], k)
      {
        block_of := block_of[i := b];
      }
    }
  }

  method CallContinuations(p: RuntimeProgram, g: BlockGraph) returns (r: seq<nat>)
    requires g.Cuts(p) && |p.instrs| > 0
    ensures forall c: nat :: c in r <==> c < |g.starts| && IsContinuation(p, g.starts[c], |p.instrs|)
  {
    r := [];
    for idx := 0 to |p.instrs|
      invariant forall c: nat :: c in r <==> c < |g.starts| && IsContinuation(p, g.starts[c], idx)
    {
      if p.instrs[idx].Call? && idx + 1 < |p.instrs| {
        assert IsLeader(p, idx + 1);
        assert idx + 1 in g.starts;
        var b: nat :| b < |g.starts| && g.starts[b] == idx + 1;
        BlockNonempty(g, p, b);
        r := r + [g.block_of[idx + 1]];
        assert forall c: nat :: c < |g.starts| && g.starts[c] == idx + 1 ==> c == b;
      }
      forall c: nat | c < |g.starts|
        ensures g.starts[c] < |p.instrs|
      {
        assert g.starts[c] in g.starts;
      }
    }
  }

  method BlockSuccessors(p: RuntimeProgram, g: BlockGraph, continuations: seq<nat>, b: nat) returns (r: seq<nat>)
    requires g.Cuts(p) && b < |g.starts| && |p.instrs| > 0
    requires forall c: nat :: c in continuations <==> c < |g.starts| && IsContinuation(p, g.starts[c], |p.instrs|)
    ensures Increasing(r) && forall c: nat :: c in r <==> Edge(p, g.starts, b, c)
  {
    BlockNonempty(g, p, b);
    var len, end := |p.instrs|, g.End(b);
    var last := p.instrs[end - 1];
    var target := TargetOf(last);
    var found: set<nat> := {};
    if last.Return? {
      found := set c | c in continuations;
    } else if !last.Exit? {
      if target.Some? && target.value < len {
        found := {g.block_of[target.value]};
      }
      if !last.Jump? && end < len {
        found := found + {g.block_of[end]};
      }
    }
    forall c: nat
      ensures c in found <==> Edge(p, g.starts, b, c)
    {
      EdgeCases(p, g, b, c);
    }
    r := SortedBelow(found, |g.starts|);
  }

  lemma EdgeCases(p: RuntimeProgram, g: BlockGraph, b: nat, c: nat)
    requires g.Cuts(p) && b < |g.starts| && |p.instrs| > 0
    ensures 0 < g.End(b) <= |p.instrs|
    ensures
      var last := p.instrs[g.End(b) - 1];
      var target := TargetOf(last);
      Edge(p, g.starts, b, c) <==>
        if last.Exit? then false
        else if last.Return? then c < |g.starts| && IsContinuation(p, g.starts[c], |p.instrs|)
        else (target.Some? && target.value < |p.instrs| && c == g.block_of[target.value]) ||
             (!last.Jump? && g.End(b) < |p.instrs| && c == g.block_of[g.End(b)])
  {
    BlockNonempty(g, p, b);
    var end := g.End(b);
    var target := TargetOf(p.instrs[end - 1]);
    if c < |g.starts| {
      BlockNonempty(g, p, c);
    }
    if target.Some? && target.value < |p.instrs| {
      StartOfTarget(p, g, end - 1);
    }
    if end < |p.instrs| {
      BlockNonempty(g, p, b + 1);
    }
  }

  lemma StartOfTarget(p: RuntimeProgram, g: BlockGraph, i: nat)
    requires g.Cuts(p) && i < |p.instrs| && TargetOf(p.instrs[i]).Some? && TargetOf(p.instrs[i]).value < |p.instrs|
    ensures var t := TargetOf(p.instrs[i]).value; g.starts[g.block_of[t]] == t
  {
    var t := TargetOf(p.instrs[i]).value;
    assert IsTarget(p, t, |p.instrs|);
    assert t in g.starts;
    var c :| 0 <= c < |g.starts| && g.starts[c] == t;
    BlockNonempty(g, p, c);
  }

  // ----- every run follows the graph -----

  /** Every pending return goes to the instruction after a call. */
  ghost predicate StackOfCalls(p: RuntimeProgram, s: State) {
    forall k :: 0 <= k < |s.stack| ==> IsContinuation(p, s.stack[k], |p.instrs|)
  }

  lemma StepFollows(w: World, p: RuntimeProgram, s: State)
    requires StackOfCalls(p, s)
    ensures StackOfCalls(p, Step(w, p, s))
    ensures s.status == Running && Step(w, p, s).status == Running && Step(w, p, s).pc < |p.instrs| ==>
      s.pc < |p.instrs| && StaticNext(p, s.pc, Step(w, p, s).pc)
  {
    hide Exec;
    hide Taken;
    if s.status == Running && s.pc < |p.instrs| {
      match p.instrs[s.pc] {
        case Return => assert s.stack == [] || IsContinuation(p, s.stack[|s.stack| - 1], |p.instrs|);
        case Call(_) => assert IsContinuation(p, s.pc + 1, |p.instrs|);
        case _ =>
      }
    }
  }

  /** After a step the program counter is where it was, at the next instruction, at a leader, or past
      the end. */
  lemma StepLands(w: World, p: RuntimeProgram, s: State)
    requires StackOfCalls(p, s) && s.status == Running && s.pc < |p.instrs|
    ensures var next := Step(w, p, s).pc;
      next == s.pc || next == s.pc + 1 || next >= |p.instrs| || IsLeader(p, next)
    ensures IsControl(p.instrs[s.pc]) ==>
      Step(w, p, s).pc == s.pc || Step(w, p, s).pc >= |p.instrs| || IsLeader(p, Step(w, p, s).pc)
  {
    hide Taken;
    hide Exec;
    StepFollows(w, p, s);
    var s' := Step(w, p, s);
    if s'.pc < |p.instrs| && s'.status == Running {
      assert IsTarget(p, s'.pc, |p.instrs|) || s'.pc == s.pc + 1 || IsContinuation(p, s'.pc, |p.instrs|);
    }
  }

  lemma {:induction false} RunStack(w: World, p: RuntimeProgram, f: Frame, n: nat)
    ensures StackOfCalls(p, Run(w, p, Start(f), n))
  {
    hide Step;
    if n > 0 {
      RunStack(w, p, f, n - 1);
      StepFollows(w, p, Run(w, p, Start(f), n - 1));
    }
  }

  /** Every step of every run, returns included, stays in its block or follows a recorded edge. */
  lemma RunFollowsGraph(w: World, p: RuntimeProgram, g: BlockGraph, f: Frame, n: nat)
    requires g.Valid(p)
    ensures var s, s' := Run(w, p, Start(f), n), Run(w, p, Start(f), n + 1);
      s.status == Running && s'.status == Running && s'.pc < |p.instrs| ==>
        s.pc < |p.instrs| &&
        ((s'.pc == s.pc + 1 && g.block_of[s'.pc] == g.block_of[s.pc]) ||
         (s.pc == g.End(g.block_of[s.pc]) - 1 && s'.pc == g.starts[g.block_of[s'.pc]] &&
          g.block_of[s'.pc] in g.successors[g.block_of[s.pc]]))
  {
    hide Step;
    RunStack(w, p, f, n);
    var s, s' := Run(w, p, Start(f), n), Run(w, p, Start(f), n + 1);
    assert s' == Step(w, p, s);
    StepFollows(w, p, s);
    if s.status == Running && s'.status == Running && s'.pc < |p.instrs| {
      LeavingBlock(g, p, s.pc, s'.pc);
    }
  }
}
