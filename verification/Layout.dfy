/** `layout_profiled_blocks`: place the blocks of a program along hot traces, inverting branches and
    repairing fall-throughs. */
module Layout {
  import opened Words
  import opened Ir
  import opened Semantics
  import opened Blocks
  import opened Permutations
  import opened Profile

  // ----- hot traces -----

  /** The keys `max_by_key` compares: among blocks, and among the successors of `from`. */
  predicate HotterBlock(profile: FunctionProfile, b: nat, c: nat) {
    var x, y := profile.ExecCount(b), profile.ExecCount(c);
    x > y || (x == y && b <= c)
  }

  predicate HotterEdge(profile: FunctionProfile, from: nat, b: nat, c: nat) {
    var x, y := profile.EdgeCount(from, b), profile.EdgeCount(from, c);
    x > y || (x == y && HotterBlock(profile, b, c))
  }

  predicate Hotter(profile: FunctionProfile, from: Option<nat>, b: nat, c: nat) {
    if from.Some? then HotterEdge(profile, from.value, b, c) else HotterBlock(profile, b, c)
  }

  ghost predicate IsHottest(profile: FunctionProfile, from: Option<nat>, candidates: set<nat>, b: nat) {
    && b in candidates
    && forall c :: c in candidates ==> Hotter(profile, from, b, c)
  }

  /** The block the trace continues with: the hottest unplaced successor, else the hottest unplaced block. */
  ghost predicate Continues(g: BlockGraph, profile: FunctionProfile, current: nat, unplaced: set<nat>, b: nat)
    requires current < |g.successors|
  {
    var next := set c | c in g.successors[current] && c in unplaced;
    if next != {} then IsHottest(profile, Some(current), next, b) else IsHottest(profile, None, unplaced, b)
  }

  ghost predicate GreedyTrace(g: BlockGraph, profile: FunctionProfile, order: seq<nat>) {
    && Within(order, |g.successors|)
    && forall k :: 0 < k < |order| ==>
      Continues(g, profile, order[k - 1], Nodes(|g.starts|) - Elements(order[..k]), order[k])
  }

  method Hottest(profile: FunctionProfile, from: Option<nat>, candidates: set<nat>) returns (b: nat)
    requires candidates != {}
    ensures IsHottest(profile, from, candidates, b)
  {
    b :| b in candidates;
    var rest := candidates - {b};
    while rest != {}
      invariant rest <= candidates && IsHottest(profile, from, candidates - rest, b)
      decreases rest
    {
      var c :| c in rest;
      rest := rest - {c};
      ghost var last := b;
      if !Hotter(profile, from, b, c) {
        b := c;
      }
      forall x | x in candidates - rest
        ensures Hotter(profile, from, b, x)
      {
        assert x == c || Hotter(profile, from, last, x);
      }
    }
    assert candidates - rest == candidates;
  }

  ghost predicate StartsAtEntry(order: seq<nat>) {
    |order| > 0 && order[0] == 0
  }

  function Upto(n: nat): (r: set<nat>)
    ensures r == Nodes(n)
  {
    if n == 0 then {} else Upto(n - 1) + {n - 1}
  }

  method FormHotTraces(p: RuntimeProgram, g: BlockGraph, profile: FunctionProfile) returns (order: seq<nat>)
    requires g.Valid(p)
    ensures IsPermutation(order, |g.starts|) && StartsAtEntry(order)
    ensures GreedyTrace(g, profile, order)
  {
    var unplaced := Upto(|g.starts|);
    order := [];
    var current: nat := 0;
    while unplaced != {}
      invariant Tracing(g, profile, order, unplaced, current)
      decreases unplaced
    {
      // The block chosen in the last turn is still unplaced, so every turn places one.
      OneMore(g, profile, order, unplaced, current);
      unplaced := unplaced - {current};
      order := order + [current];
      var next: set<nat> := set c | c in g.successors[current] && c in unplaced;
      if next != {} {
        current := Hottest(profile, Some(current), next);
      } else if unplaced != {} {
        current := Hottest(profile, None, unplaced);
      }
    }
    AllPlaced(g, profile, order, unplaced, current);
  }

  lemma AllPlaced(g: BlockGraph, profile: FunctionProfile, order: seq<nat>, unplaced: set<nat>, current: nat)
    requires Tracing(g, profile, order, unplaced, current) && unplaced == {} && |g.starts| > 0
    ensures IsPermutation(order, |g.starts|) && StartsAtEntry(order)
  {
    hide Continues;
    forall k: nat
      ensures k in order <==> k < |g.starts|
    {
      assert k in Nodes(|g.starts|) <==> k < |g.starts|;
      assert k in Nodes(|g.starts|) ==> k in Elements(order);
      assert k in order && k >= |g.starts| ==> k in Elements(order);
    }
    assert 0 in order;
  }

  ghost predicate Tracing(g: BlockGraph, profile: FunctionProfile, order: seq<nat>, unplaced: set<nat>, current: nat) {
    && |g.successors| == |g.starts| && Distinct(order) && GreedyTrace(g, profile, order)
    && unplaced == Nodes(|g.starts|) - Elements(order)
    && (if order == [] then current == 0 else order[0] == 0)
    && (unplaced != {} ==> current in unplaced)
    && (order != [] && unplaced != {} ==> Continues(g, profile, order[|order| - 1], unplaced, current))
  }

  lemma OneMore(g: BlockGraph, profile: FunctionProfile, order: seq<nat>, unplaced: set<nat>, current: nat)
    requires Tracing(g, profile, order, unplaced, current) && unplaced != {}
    ensures GreedyTrace(g, profile, order + [current]) && Distinct(order + [current])
    ensures unplaced - {current} == Nodes(|g.starts|) - Elements(order + [current])
  {
    hide Continues;
    assert Elements(order + [current]) == Elements(order) + {current};
    GreedyMore(g, profile, order, current);
  }

  lemma GreedyMore(g: BlockGraph, profile: FunctionProfile, order: seq<nat>, current: nat)
    requires GreedyTrace(g, profile, order) && current < |g.successors|
    requires order != [] ==> Continues(g, profile, order[|order| - 1], Nodes(|g.starts|) - Elements(order), current)
    ensures GreedyTrace(g, profile, order + [current])
  {
    hide Continues;
    var longer := order + [current];
    forall k | 0 < k < |longer|
      ensures Continues(g, profile, longer[k - 1], Nodes(|g.starts|) - Elements(longer[..k]), longer[k])
    {
      assert longer[..k] == order[..k];
      assert order[..|order|] == order;
    }
  }

  // ----- laying out one block -----

  const BLOCK_MARKER_BASE: nat := MAX / 2

  function BlockMarker(b: Option<nat>): nat {
    if b.Some? then BLOCK_MARKER_BASE + b.value else MAX
  }

  /** `invert_cmp` */
  function InvertCmp(cmp: RuntimeCmpOp): RuntimeCmpOp {
    match cmp
    case Eq => Ne
    case Ne => Eq
    case LtUnsigned => GeUnsigned
    case LeUnsigned => GtUnsigned
    case GtUnsigned => LeUnsigned
    case GeUnsigned => LtUnsigned
    case LtSigned => GeSigned
    case LeSigned => GtSigned
    case GtSigned => LeSigned
    case GeSigned => LtSigned
  }

  /** The block that starts at `target`, if there is one. */
  function BlockForTarget(g: BlockGraph, target: nat): Option<nat> {
    if target < |g.block_of| && g.block_of[target] < |g.starts| && g.starts[g.block_of[target]] == target
    then Some(g.block_of[target]) else None
  }

  function FallThrough(g: BlockGraph, b: nat): Option<nat>
    requires b < |g.starts|
  {
    if g.End(b) < |g.block_of| then Some(g.block_of[g.End(b)]) else None
  }

  predicate IsBranch(i: RuntimeInstr) {
    i.JumpIfZero? || i.JumpIfCmpFalse?
  }

  /** Control never passes this instruction. */
  predicate IsTerminal(i: RuntimeInstr) {
    i.Jump? || i.Return? || i.Exit?
  }

  /** The taken side of the branch that ends `b` comes next, so the branch is turned around. */
  predicate Inverted(g: BlockGraph, last: RuntimeInstr, b: nat, next: Option<nat>)
    requires b < |g.starts|
  {
    IsBranch(last) && next == BlockForTarget(g, last.target) && FallThrough(g, b).Some?
  }

  function Terminator(g: BlockGraph, last: RuntimeInstr, b: nat, next: Option<nat>): RuntimeInstr
    requires b < |g.starts|
  {
    match last
    case JumpIfCmpFalse(cmp, lhs, rhs, target) =>
      if Inverted(g, last, b, next) then JumpIfCmpFalse(InvertCmp(cmp), lhs, rhs, BlockMarker(FallThrough(g, b)))
      else JumpIfCmpFalse(cmp, lhs, rhs, BlockMarker(BlockForTarget(g, target)))
    case JumpIfZero(cond, target) =>
      if Inverted(g, last, b, next) then JumpIfCmpFalse(Eq, Slot(cond), Imm(0), BlockMarker(FallThrough(g, b)))
      else JumpIfZero(cond, BlockMarker(BlockForTarget(g, target)))
    case Jump(target) => Jump(BlockMarker(BlockForTarget(g, target)))
    case _ => last
  }

  /** The jump added when the original fall-through does not come next. */
  function Repair(g: BlockGraph, last: RuntimeInstr, b: nat, next: Option<nat>): seq<RuntimeInstr>
    requires b < |g.starts|
  {
    var fall := FallThrough(g, b);
    if IsTerminal(last) || Inverted(g, last, b, next) || fall.None?
      || fall == next then [] else [Jump(BlockMarker(fall))]
  }

  function NextInOrder(order: seq<nat>, k: nat): Option<nat> {
    if k + 1 < |order| then Some(order[k + 1]) else None
  }

  /** The code of the `k`-th block of the new order, with block markers for targets. */
  function LayBlock(p: RuntimeProgram, g: BlockGraph, order: seq<nat>, k: nat): seq<RuntimeInstr>
    requires g.Cuts(p) && |p.instrs| > 0 && k < |order| && order[k] < |g.starts|
  {
    var b := order[k];
    BlockNonempty(g, p, b);
    var last := p.instrs[g.End(b) - 1];
    p.instrs[g.starts[b]..g.End(b) - 1] + [Terminator(g, last, b, NextInOrder(order, k))]
      + Repair(g, last, b, NextInOrder(order, k))
  }

  // ----- laying out the program -----

  /** `remap_marker_target` */
  function Resolve(i: RuntimeInstr, starts: map<nat, nat>, end: nat): RuntimeInstr {
    match i
    case Jump(t) => Jump(ResolveTarget(t, starts, end))
    case JumpIfZero(cond, t) => JumpIfZero(cond, ResolveTarget(t, starts, end))
    case JumpIfCmpFalse(cmp, lhs, rhs, t) => JumpIfCmpFalse(cmp, lhs, rhs, ResolveTarget(t, starts, end))
    case Call(t) => Call(ResolveTarget(t, starts, end))
    case _ => i
  }

  function ResolveTarget(t: nat, starts: map<nat, nat>, end: nat): nat {
    if t == MAX then end
    else if t >= BLOCK_MARKER_BASE then
      if t - BLOCK_MARKER_BASE in starts then starts[t - BLOCK_MARKER_BASE] else end
    else t
  }

  function ResolveAll(code: seq<RuntimeInstr>, starts: map<nat, nat>, end: nat): (r: seq<RuntimeInstr>)
    ensures |r| == |code| && forall k :: 0 <= k < |code| ==> r[k] == Resolve(code[k], starts, end)
  {
    seq(|code|, k requires 0 <= k < |code| => Resolve(code[k], starts, end))
  }

  /** Where the `k`-th block of the new order starts. */
  ghost function Offset(p: RuntimeProgram, g: BlockGraph, order: seq<nat>, k: nat): nat
    requires g.Cuts(p) && |p.instrs| > 0 && Within(order, |g.starts|) && k <= |order|
  {
    if k == 0 then 0 else Offset(p, g, order, k - 1) + |LayBlock(p, g, order, k - 1)|
  }

  ghost predicate Places(p: RuntimeProgram, g: BlockGraph, order: seq<nat>, starts: map<nat, nat>, n: nat)
    requires g.Cuts(p) && |p.instrs| > 0 && Within(order, |g.starts|) && n <= |order|
  {
    forall k {:trigger PlacedAt(p, g, order, starts, k)} :: 0 <= k < n ==> PlacedAt(p, g, order, starts, k)
  }

  ghost predicate PlacedAt(p: RuntimeProgram, g: BlockGraph, order: seq<nat>, starts: map<nat, nat>, k: nat)
    requires g.Cuts(p) && |p.instrs| > 0 && Within(order, |g.starts|) && k < |order|
  {
    order[k] in starts && starts[order[k]] == Offset(p, g, order, k)
  }

  /** The first `n` blocks of the new order lie one after the other, with their targets resolved. */
  ghost predicate Placed(p: RuntimeProgram, g: BlockGraph, order: seq<nat>, starts: map<nat, nat>, end: nat,
      code: seq<RuntimeInstr>, n: nat)
    requires g.Cuts(p) && |p.instrs| > 0 && Within(order, |g.starts|) && n <= |order|
  {
    && |code| == Offset(p, g, order, n)
    && forall k :: 0 <= k < n ==> PlacedBlock(p, g, order, starts, end, code, k)
  }

  ghost predicate PlacedBlock(p: RuntimeProgram, g: BlockGraph, order: seq<nat>, starts: map<nat, nat>, end: nat,
      code: seq<RuntimeInstr>, k: nat)
    requires g.Cuts(p) && |p.instrs| > 0 && Within(order, |g.starts|) && k < |order|
  {
    && Offset(p, g, order, k + 1) <= |code|
    && code[Offset(p, g, order, k)..Offset(p, g, order, k + 1)] == ResolveAll(LayBlock(p, g, order, k), starts, end)
  }

  ghost predicate LaidOut(p: RuntimeProgram, g: BlockGraph, order: seq<nat>, starts: map<nat, nat>, q: RuntimeProgram) {
    && g.Cuts(p) && |p.instrs| > 0 && IsPermutation(order, |g.starts|) && Within(order, |g.starts|)
    && StartsAtEntry(order)
    && q.slots == p.slots
    && Places(p, g, order, starts, |order|)
    && Placed(p, g, order, starts, |q.instrs|, q.instrs, |order|)
  }

  method PlaceBlocks(p: RuntimeProgram, g: BlockGraph, order: seq<nat>)
      returns (q: RuntimeProgram, starts: map<nat, nat>)
    requires g.Cuts(p) && |p.instrs| > 0 && IsPermutation(order, |g.starts|) && StartsAtEntry(order)
    ensures LaidOut(p, g, order, starts, q)
  {
    PermutationSize(order, |g.starts|);
    var pending: seq<seq<RuntimeInstr>> := [];
    for k := 0 to |order|
      invariant |pending| == k && forall j :: 0 <= j < k ==> pending[j] == LayBlock(p, g, order, j)
    {
      pending := pending + [LayBlock(p, g, order, k)];
    }
    hide LayBlock;
    var end;
    starts, end := BlockStarts(p, g, order, pending);
    var instrs: seq<RuntimeInstr> := [];
    for k := 0 to |order|
      invariant Placed(p, g, order, starts, end, instrs, k)
    {
      PlaceOne(p, g, order, starts, end, instrs, k);
      instrs := instrs + ResolveAll(pending[k], starts, end);
    }
    q := RuntimeProgram(p.slots, instrs);
  }

  method BlockStarts(p: RuntimeProgram, g: BlockGraph, order: seq<nat>, pending: seq<seq<RuntimeInstr>>)
      returns (starts: map<nat, nat>, end: nat)
    requires g.Cuts(p) && |p.instrs| > 0 && Distinct(order) && Within(order, |g.starts|)
    requires |pending| == |order| && forall j :: 0 <= j < |order| ==> pending[j] == LayBlock(p, g, order, j)
    ensures Places(p, g, order, starts, |order|) && end == Offset(p, g, order, |order|)
  {
    hide LayBlock;
    starts, end := map[], 0;
    for k := 0 to |order|
      invariant end == Offset(p, g, order, k) && Places(p, g, order, starts, k)
    {
      PlacesMore(p, g, order, starts, k);
      starts := starts[order[k] := end];
      end := end + |pending[k]|;
    }
  }

  lemma PlacesMore(p: RuntimeProgram, g: BlockGraph, order: seq<nat>, starts: map<nat, nat>, n: nat)
    requires g.Cuts(p) && |p.instrs| > 0 && Distinct(order) && Within(order, |g.starts|) && n < |order|
    requires Places(p, g, order, starts, n)
    ensures Places(p, g, order, starts[order[n] := Offset(p, g, order, n)], n + 1)
  {
    hide Offset;
    var more := starts[order[n] := Offset(p, g, order, n)];
    forall k | 0 <= k < n + 1
      ensures PlacedAt(p, g, order, more, k)
    {
      assert k < n ==> PlacedAt(p, g, order, starts, k);
    }
  }

  lemma PlaceOne(p: RuntimeProgram, g: BlockGraph, order: seq<nat>, starts: map<nat, nat>, end: nat,
      code: seq<RuntimeInstr>, n: nat)
    requires g.Cuts(p) && |p.instrs| > 0 && Within(order, |g.starts|) && n < |order|
    requires Placed(p, g, order, starts, end, code, n)
    ensures Placed(p, g, order, starts, end, code + ResolveAll(LayBlock(p, g, order, n), starts, end), n + 1)
  {
    hide LayBlock;
    var longer := code + ResolveAll(LayBlock(p, g, order, n), starts, end);
    forall k | 0 <= k < n + 1
      ensures PlacedBlock(p, g, order, starts, end, longer, k)
    {
      if k < n {
        assert PlacedBlock(p, g, order, starts, end, code, k);
        var a, b := Offset(p, g, order, k), Offset(p, g, order, k + 1);
        assert longer[a..b] == code[a..b];
      }
    }
  }

  predicate HasCall(p: RuntimeProgram) {
    exists k :: 0 <= k < |p.instrs| && p.instrs[k].Call?
  }

  /** `profile_matches_cfg` */
  predicate ProfileMatches(g: BlockGraph, profile: FunctionProfile) {
    && |profile.blocks| == |g.successors|
    && forall b :: 0 <= b < |g.successors| ==>
      b in profile.blocks && forall c :: c in profile.blocks[b].edge_counts ==> c in g.successors[b]
  }

  predicate IsIdentity(order: seq<nat>) {
    forall k :: 0 <= k < |order| ==> order[k] == k
  }

  method LayoutProfiledBlocks(p: RuntimeProgram, profile: FunctionProfile)
    returns (result: Option<RuntimeProgram>, g: BlockGraph, order: seq<nat>, starts: map<nat, nat>)
    ensures g.Valid(p)
    ensures result.None? <==> HasCall(p) || |g.starts| < 2 || !ProfileMatches(g, profile)
    ensures result.Some? ==> IsPermutation(order, |g.starts|) && GreedyTrace(g, profile, order)
    ensures result.Some? && IsIdentity(order) ==> result.value == p
    ensures result.Some? && !IsIdentity(order) ==> LaidOut(p, g, order, starts, result.value)
  {
    order, starts := [], map[];
    var graph := BuildBlockGraph(p);
    g := graph;
    if HasCall(p) || |graph.starts| < 2 || !ProfileMatches(graph, profile) {
      return None, g, order, starts;
    }
    var trace := FormHotTraces(p, graph, profile);
    order := trace;
    if IsIdentity(trace) {
      return Some(p), g, order, starts;
    }
    assert graph.starts[1] in graph.starts;
    var q, places := PlaceBlocks(p, graph, trace);
    return Some(q), g, order, places;
  }
}
