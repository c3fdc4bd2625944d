/** `optimize_runtime_program`: the four passes in order, and what they preserve together. */
module Pipeline {
  import opened Words
  import opened Ir
  import opened Semantics
  import opened Execution
  import opened Blocks
  import opened Permutations
  import opened Profile
  import opened Compaction
  import opened CopyPropagation
  import opened CopyCorrectness
  import opened Superoptimizer
  import opened Scheduler
  import opened ScheduleCorrectness
  import opened Layout
  import opened LayoutCorrectness

  /** The last instruction passes control on to nothing. */
  predicate EndsTerminal(p: RuntimeProgram) {
    |p.instrs| > 0 && IsTerminal(p.instrs[|p.instrs| - 1])
  }

  lemma PropagatedEnd(p: RuntimeProgram, aliases: Aliases, removed: set<nat>, q: RuntimeProgram)
    requires Propagated(p, aliases, removed, q)
    ensures |q.instrs| <= |p.instrs| && (EndsTerminal(p) ==> EndsTerminal(q))
  {
    if EndsTerminal(p) {
      var k := |p.instrs| - 1;
      assert !IsCandidate(p, k);
      hide IsCandidate;
      hide ResolvedAliases;
      CodeAt(p, aliases, removed, q, k);
    }
  }

  lemma SuperoptimizedEnd(p: RuntimeProgram, q: RuntimeProgram, cost: RuntimeInstr -> nat, rank: RuntimeInstr -> nat)
    requires Superoptimized(p, q, cost, rank)
    ensures |q.instrs| == |p.instrs| && (EndsTerminal(p) ==> EndsTerminal(q))
  {
    if EndsTerminal(p) {
      var k := |p.instrs| - 1;
      assert Improved(p.instrs, k, q.instrs[k], cost, rank);
      assert EnumerateCandidates(p.instrs[k]) == [];
    }
  }

  lemma ScheduledEnd(p: RuntimeProgram, q: RuntimeProgram, cost: CostModel)
    requires Scheduled(p, q, cost)
    ensures |q.instrs| == |p.instrs| && (EndsTerminal(p) ==> EndsTerminal(q))
  {
    hide RegionScheduled;
    hide MaximalRegion;
  }

  /** What the layout pass did: nothing, or it moved the blocks of `graph` into `order`. */
  datatype Placement = Unmoved | Moved(graph: BlockGraph, order: seq<nat>, starts: map<nat, nat>)

  /** The placement of `p` that gives `q`, by the hottest traces. */
  ghost predicate IsPlacement(p: RuntimeProgram, profile: FunctionProfile, placement: Placement, q: RuntimeProgram) {
    match placement
    case Unmoved => q == p
    case Moved(g, order, starts) => LaidOut(p, g, order, starts, q) && GreedyTrace(g, profile, order) && !HasCall(p)
  }

  /** The last block stays last or ends in an unconditional transfer, if any block is moved. */
  ghost predicate SafePlacement(p: RuntimeProgram, placement: Placement) {
    placement.Moved? ==> |p.instrs| > 0 && EndStaysLast(p, placement.graph, placement.order)
  }

  /** The whole optimizer.  For every program in range, whatever the cost tables and the profile are, the
      result behaves like the original; if a profile moves blocks, the block at the end of the program must
      be safe to move. */
  method OptimizeRuntimeProgram(p: RuntimeProgram, profile: Option<FunctionProfile>, cost: RuntimeInstr -> nat,
      rank: RuntimeInstr -> nat, target: CostModel)
    returns (q: RuntimeProgram, propagated: RuntimeProgram, improved: RuntimeProgram, scheduled: RuntimeProgram,
      placement: Placement)
    requires InRange(p) && SmallEnough(p)
    ensures SafePlacement(scheduled, placement) ==> SameBehaviour(p, q)
    ensures profile.None? || EndsTerminal(p) ==> SafePlacement(scheduled, placement)
    ensures exists aliases, removed :: Propagated(p, aliases, removed, propagated)
    ensures Superoptimized(propagated, improved, cost, rank)
    ensures Scheduled(improved, scheduled, target)
    ensures profile.None? ==> placement.Unmoved? && q == scheduled
    ensures profile.Some? ==> IsPlacement(scheduled, profile.value, placement, q)
  {
    hide SameBehaviour;
    var a, aliases, removed := PropagateSingleAssignmentCopies(p);
    PropagationPreservesBehaviour(p, aliases, removed, a);
    PropagatedEnd(p, aliases, removed, a);
    var b := RunVerifiedSuperoptimizer(a, cost, rank);
    SuperoptimizerPreservesBehaviour(a, b, cost, rank);
    SuperoptimizedEnd(a, b, cost, rank);
    SameBehaviourTransitive(p, a, b);
    var c := SchedulePureRegions(b, target);
    ScheduledEnd(b, c, target);
    SameBehaviourTransitive(p, b, c);
    q, propagated, improved, scheduled, placement := c, a, b, c, Unmoved;
    NotMoved(c);
    hide *;
    if profile.Some? {
      q, placement := LayOut(c, profile.value);
      if SafePlacement(c, placement) {
        SameBehaviourTransitive(p, c, q);
      }
    }
  }

  lemma NotMoved(p: RuntimeProgram)
    ensures SafePlacement(p, Unmoved)
  {}

  /** Layout by any profile, for every program short enough. */
  method LayOut(p: RuntimeProgram, profile: FunctionProfile) returns (q: RuntimeProgram, placement: Placement)
    requires SmallEnough(p)
    ensures IsPlacement(p, profile, placement, q)
    ensures SafePlacement(p, placement) ==> SameBehaviour(p, q)
    ensures EndsTerminal(p) ==> SafePlacement(p, placement)
  {
    hide SameBehaviour;
    hide GreedyTrace;
    var result, g, order, starts := LayoutProfiledBlocks(p, profile);
    SameBehaviourReflexive(p);
    q, placement := p, Unmoved;
    if result.Some? {
      q := result.value;
      if !IsIdentity(order) {
        placement := Moved(g, order, starts);
        if EndStaysLast(p, g, order) {
          LayoutPreservesBehaviour(p, g, order, starts, q);
        }
      }
    }
  }
}
