/** `schedule_region`: list scheduling of one straight-line stretch of pure instructions. */
module Scheduler {
  import opened Words
  import opened Ir
  import opened Semantics
  import opened Execution
  import opened Permutations

  /** The target's cost tables, which only ever choose among legal orders: the priority of a ready
      node given what has been emitted, and whether an order's register pressure is acceptable. */
  datatype CostModel = CostModel(
    priority: (seq<RuntimeInstr>, seq<nat>, nat) -> int,
    accepts: (seq<RuntimeInstr>, seq<nat>) -> bool)

  predicate IsSchedulable(i: RuntimeInstr) {
    i.Mov? || i.BinOp? || i.BinOpInPlace? || i.NormalizeInt?
  }

  predicate Overlap(a: seq<nat>, b: seq<nat>) {
    exists x :: x in a && x in b
  }

  /** One of the two writes a slot that the other reads or writes. */
  predicate Dependent(a: RuntimeInstr, b: RuntimeInstr) {
    Overlap(WriteSlots(a), ReadSlots(b)) || Overlap(WriteSlots(a), WriteSlots(b))
      || Overlap(ReadSlots(a), WriteSlots(b))
  }

  /** `i` has to stay before `j`. */
  predicate Edge(region: seq<RuntimeInstr>, i: nat, j: nat) {
    i < j < |region| && Dependent(region[i], region[j])
  }

  /** Whatever `j` depends on has been emitted before `j`. */
  ghost predicate Respects(region: seq<RuntimeInstr>, order: seq<nat>) {
    forall a, i: nat :: 0 <= a < |order| && Edge(region, i, order[a]) ==> i in order[..a]
  }

  /** A complete reordering of the region that keeps every dependence. */
  ghost predicate IsSchedule(region: seq<RuntimeInstr>, order: seq<nat>) {
    IsPermutation(order, |region|) && Respects(region, order)
  }

  // ----- dependence counts -----

  /** The predecessors of `j` among the first `n` nodes that have not been emitted. */
  ghost function Pending(region: seq<RuntimeInstr>, j: nat, n: nat, emitted: set<nat>): set<nat> {
    set i: nat | i < n && Edge(region, i, j) && i !in emitted
  }

  ghost predicate Counted(region: seq<RuntimeInstr>, indegree: seq<nat>, n: nat, emitted: set<nat>) {
    |indegree| == |region| && forall j :: 0 <= j < |region| ==> indegree[j] == |Pending(region, j, n, emitted)|
  }

  ghost predicate Successors(region: seq<RuntimeInstr>, successors: seq<seq<nat>>, n: nat) {
    && n <= |successors| == |region|
    && forall i :: 0 <= i < n ==> SuccessorList(region, i, successors[i], |region|)
  }

  ghost predicate SuccessorList(region: seq<RuntimeInstr>, i: nat, list: seq<nat>, n: nat) {
    Distinct(list) && forall j: nat :: j in list <==> j < n && Edge(region, i, j)
  }

  method BuildDependences(region: seq<RuntimeInstr>) returns (successors: seq<seq<nat>>, indegree: seq<nat>)
    ensures Successors(region, successors, |region|)
    ensures Counted(region, indegree, |region|, {})
  {
    successors := seq(|region|, _ => []);
    indegree := seq(|region|, _ => 0);
    assert forall j: nat :: Pending(region, j, 0, {}) == {};
    for left := 0 to |region|
      invariant Successors(region, successors, left)
      invariant Counted(region, indegree, left, {})
    {
      var list, counts := EdgesFrom(region, left, indegree);
      forall j | 0 <= j < |region|
        ensures counts[j] == |Pending(region, j, left + 1, {})|
      {
        PendingGrows(region, j, left);
      }
      indegree := counts;
      successors := successors[left := list];
    }
  }

  method EdgesFrom(region: seq<RuntimeInstr>, left: nat, indegree: seq<nat>) returns (list: seq<nat>, counts: seq<nat>)
    requires left < |region| == |indegree|
    ensures SuccessorList(region, left, list, |region|)
    ensures |counts| == |region| && forall j :: 0 <= j < |region| ==>
      counts[j] == indegree[j] + (if Edge(region, left, j) then 1 else 0)
  {
    list, counts := [], indegree;
    hide Dependent;
    for right := left + 1 to |region|
      invariant SuccessorList(region, left, list, right)
      invariant |counts| == |region| && forall j :: 0 <= j < |region| ==>
        counts[j] == indegree[j] + (if j < right && Edge(region, left, j) then 1 else 0)
    {
      if Dependent(region[left], region[right]) {
        assert forall i :: 0 <= i < |list| ==> list[i] in list;
        list := list + [right];
        counts := counts[right := counts[right] + 1];
      }
    }
  }

  lemma PendingGrows(region: seq<RuntimeInstr>, j: nat, n: nat)
    ensures |Pending(region, j, n + 1, {})| == |Pending(region, j, n, {})| + (if Edge(region, n, j) then 1 else 0)
  {
    var before := Pending(region, j, n, {});
    if Edge(region, n, j) {
      assert Pending(region, j, n + 1, {}) == before + {n};
    } else {
      assert Pending(region, j, n + 1, {}) == before;
    }
  }

  lemma PendingShrinks(region: seq<RuntimeInstr>, j: nat, emitted: set<nat>, node: nat)
    requires node < |region| && node !in emitted
    ensures |Pending(region, j, |region|, emitted)| ==
      |Pending(region, j, |region|, emitted + {node})| + (if Edge(region, node, j) then 1 else 0)
  {
    var after := Pending(region, j, |region|, emitted + {node});
    if Edge(region, node, j) {
      assert Pending(region, j, |region|, emitted) == after + {node};
    } else {
      assert Pending(region, j, |region|, emitted) == after;
    }
  }

  // ----- the ready-set loop -----

  predicate Preferred(region: seq<RuntimeInstr>, order: seq<nat>, cost: CostModel, node: nat, k: nat) {
    var a, b := cost.priority(region, order, node), cost.priority(region, order, k);
    a > b || (a == b && node <= k)
  }

  /** The ready node with the highest priority; the smallest one on a tie. */
  method PickReady(region: seq<RuntimeInstr>, ready: set<nat>, order: seq<nat>, cost: CostModel) returns (node: nat)
    requires ready != {}
    ensures node in ready
    ensures forall k :: k in ready ==> Preferred(region, order, cost, node, k)
  {
    node :| node in ready;
    var rest := ready - {node};
    while rest != {}
      invariant rest <= ready && node in ready
      invariant forall k :: k in ready - rest ==> Preferred(region, order, cost, node, k)
      decreases rest
    {
      var k :| k in rest;
      rest := rest - {k};
      ghost var last := node;
      if !Preferred(region, order, cost, node, k) {
        node := k;
      }
      forall x | x in ready - rest
        ensures Preferred(region, order, cost, node, x)
      {
        assert x == k || Preferred(region, order, cost, last, x);
      }
    }
  }

  ghost predicate ReadyNodes(region: seq<RuntimeInstr>, ready: set<nat>, emitted: set<nat>) {
    forall j: nat :: j in ready <==> j < |region| && j !in emitted && Pending(region, j, |region|, emitted) == {}
  }

  method ScheduleRegion(region: seq<RuntimeInstr>, cost: CostModel) returns (result: Option<seq<nat>>, order: seq<nat>)
    ensures IsSchedule(region, order)
    ensures result == if cost.accepts(region, order) then Some(order) else None
  {
    var successors, indegree := BuildDependences(region);
    var ready: set<nat> := set j | 0 <= j < |region| && indegree[j] == 0;
    var emit: seq<nat> := [];
    ghost var emitted: set<nat> := {};
    while ready != {}
      invariant Distinct(emit) && (forall k: nat :: k in emitted <==> k in emit)
        && (forall k :: k in emit ==> k < |region|)
      invariant Respects(region, emit)
      invariant Counted(region, indegree, |region|, emitted)
      invariant ReadyNodes(region, ready, emitted)
      decreases Nodes(|region|) - emitted
    {
      var node := PickReady(region, ready, emit, cost);
      EmitRespects(region, emit, emitted, node);
      emit := emit + [node];
      var newly;
      indegree, newly := Release(region, successors[node], indegree, node, emitted);
      ready := ready - {node} + newly;
      emitted := emitted + {node};
    }
    AllEmitted(region, ready, emitted, |region|);
    order := emit;
    if !cost.accepts(region, emit) {
      return None, order;
    }
    return Some(emit), order;
  }

  lemma EmitRespects(region: seq<RuntimeInstr>, order: seq<nat>, emitted: set<nat>, node: nat)
    requires Respects(region, order) && forall k: nat :: k in emitted <==> k in order
    requires node < |region| && Pending(region, node, |region|, emitted) == {}
    ensures Respects(region, order + [node])
  {
    var longer := order + [node];
    forall a, i: nat | 0 <= a < |longer| && Edge(region, i, longer[a])
      ensures i in longer[..a]
    {
      if a < |order| {
        assert longer[..a] == order[..a];
      } else {
        assert longer[..a] == order;
        assert i !in Pending(region, node, |region|, emitted);
      }
    }
  }

  /** Emitting `node` lowers the counts of its successors and makes some of them ready. */
  method Release(region: seq<RuntimeInstr>, list: seq<nat>, indegree: seq<nat>, node: nat, ghost emitted: set<nat>)
    returns (counts: seq<nat>, newly: set<nat>)
    requires node < |region| && node !in emitted && SuccessorList(region, node, list, |region|)
    requires Counted(region, indegree, |region|, emitted)
    ensures Counted(region, counts, |region|, emitted + {node})
    ensures forall j :: j in newly <==> j in list && j < |counts| && counts[j] == 0
  {
    forall j | 0 <= j < |region|
      ensures indegree[j] == |Pending(region, j, |region|, emitted + {node})| + (if j in list then 1 else 0)
    {
      PendingShrinks(region, j, emitted, node);
    }
    hide Pending;
    hide SuccessorList;
    counts, newly := LowerCounts(list, indegree);
  }

  method LowerCounts(list: seq<nat>, indegree: seq<nat>) returns (counts: seq<nat>, newly: set<nat>)
    requires Distinct(list) && forall k :: k in list ==> k < |indegree| && indegree[k] > 0
    ensures |counts| == |indegree| && forall j :: 0 <= j < |indegree| ==>
      counts[j] == indegree[j] - (if j in list then 1 else 0)
    ensures forall j :: j in newly <==> j in list && j < |counts| && counts[j] == 0
  {
    counts, newly := indegree, {};
    for k := 0 to |list|
      invariant |counts| == |indegree|
      invariant forall j :: 0 <= j < |indegree| ==> counts[j] == indegree[j] - (if j in list[..k] then 1 else 0)
      invariant forall j :: j in newly <==> j in list[..k] && j < |counts| && counts[j] == 0
    {
      var j := list[k];
      assert j in list && j !in list[..k] && list[..k + 1] == list[..k] + [j];
      counts := counts[j := counts[j] - 1];
      if counts[j] == 0 {
        newly := newly + {j};
      }
    }
    assert list[..|list|] == list;
  }

  /** With nothing ready, everything has been emitted: the smallest node left would be ready. */
  lemma {:induction false} AllEmitted(region: seq<RuntimeInstr>, ready: set<nat>, emitted: set<nat>, n: nat)
    requires n <= |region| && ReadyNodes(region, ready, emitted) && ready == {}
    ensures forall k: nat :: k < n ==> k in emitted
  {
    if n > 0 {
      AllEmitted(region, ready, emitted, n - 1);
      assert Pending(region, n - 1, |region|, emitted) == {};
    }
  }

  // ----- executing in any legal order -----

  /** Running scalar instructions one after the other; `None` if one traps. */
  function Perform(code: seq<RuntimeInstr>, f: Frame): Option<Frame>
    requires AllScalar(code)
  {
    if code == [] then Some(f)
    else match Do(code[0], f)
      case None => None
      case Some(g) => Perform(code[1..], g)
  }

  function Do(i: RuntimeInstr, f: Frame): Option<Frame>
    requires IsScalar(i)
  {
    match ScalarValue(i, f)
    case None => None
    case Some(v) => Some(f[i.dst := v])
  }

  function Code(region: seq<RuntimeInstr>, order: seq<nat>): (code: seq<RuntimeInstr>)
    requires Within(order, |region|)
    ensures |code| == |order| && forall k :: 0 <= k < |order| ==> code[k] == region[order[k]]
    ensures AllScalar(region) ==> AllScalar(code)
  {
    seq(|order|, k requires 0 <= k < |order| => region[order[k]])
  }

  predicate AllScalar(code: seq<RuntimeInstr>) {
    forall k :: 0 <= k < |code| ==> IsScalar(code[k])
  }

  function DoBoth(a: RuntimeInstr, b: RuntimeInstr, f: Frame): Option<Frame>
    requires IsScalar(a) && IsScalar(b)
  {
    match Do(a, f)
    case None => None
    case Some(g) => Do(b, g)
  }

  /** Two independent instructions can be exchanged, whether or not either of them traps. */
  lemma Exchange(a: RuntimeInstr, b: RuntimeInstr, f: Frame)
    requires IsScalar(a) && IsScalar(b) && !Dependent(a, b)
    ensures DoBoth(a, b, f) == DoBoth(b, a, f)
  {
    hide ScalarValue;
    var x, y := ScalarValue(a, f), ScalarValue(b, f);
    WritesDst(a);
    WritesDst(b);
    assert a.dst in WriteSlots(a) && b.dst in WriteSlots(b);
    assert a.dst !in ReadSlots(b) && b.dst !in ReadSlots(a) && a.dst != b.dst;
    hide ReadSlots;
    hide WriteSlots;
    hide Dependent;
    if x.Some? {
      ScalarFootprint(b, f, f[a.dst := x.value]);
    }
    if y.Some? {
      ScalarFootprint(a, f, f[b.dst := y.value]);
    }
    if x.Some? && y.Some? {
      assert f[a.dst := x.value][b.dst := y.value] == f[b.dst := y.value][a.dst := x.value];
    }
  }

  lemma PerformTwo(a: RuntimeInstr, b: RuntimeInstr, rest: seq<RuntimeInstr>, f: Frame)
    requires IsScalar(a) && IsScalar(b) && AllScalar(rest)
    ensures Perform([a, b] + rest, f) == match DoBoth(a, b, f) case None => None case Some(g) => Perform(rest, g)
  {
    hide Do;
    assert ([a, b] + rest)[1..] == [b] + rest;
    assert ([b] + rest)[1..] == rest;
  }

  lemma WritesDst(i: RuntimeInstr)
    requires IsScalar(i)
    ensures WriteSlots(i) == [i.dst]
  {}

  lemma {:induction false} MoveToFront(before: seq<RuntimeInstr>, x: RuntimeInstr, after: seq<RuntimeInstr>, f: Frame)
    requires AllScalar(before) && IsScalar(x) && AllScalar(after)
    requires forall k :: 0 <= k < |before| ==> !Dependent(before[k], x)
    ensures Perform(before + [x] + after, f) == Perform([x] + before + after, f)
  {
    hide Do;
    hide Dependent;
    if before == [] {
      assert before + [x] + after == [x] + before + after;
    } else {
      var a, rest := before[0], before[1..];
      assert (before + [x] + after)[1..] == rest + [x] + after;
      assert ([a, x] + (rest + after))[1..] == [x] + rest + after;
      if Do(a, f).Some? {
        MoveToFront(rest, x, after, Do(a, f).value);
      }
      PerformTwo(a, x, rest + after, f);
      PerformTwo(x, a, rest + after, f);
      assert [x, a] + (rest + after) == [x] + before + after;
      Exchange(a, x, f);
    }
  }

  /** `order` lists the indices of `sorted`, keeping dependent ones in order. */
  ghost predicate Rearranges(region: seq<RuntimeInstr>, sorted: seq<nat>, order: seq<nat>) {
    && Within(sorted, |region|) && Within(order, |region|)
    && (forall k: nat :: k in order <==> k in sorted)
    && (forall i, j :: 0 <= i < j < |sorted| ==> sorted[i] < sorted[j])
    && Distinct(order)
    && (forall a, b :: 0 <= a < b < |order| && order[b] < order[a] ==> !Dependent(region[order[b]], region[order[a]]))
  }

  lemma {:induction false} RearrangedSame(region: seq<RuntimeInstr>, sorted: seq<nat>, order: seq<nat>, f: Frame)
    requires AllScalar(region) && Rearranges(region, sorted, order)
    ensures Perform(Code(region, order), f) == Perform(Code(region, sorted), f)
    decreases |order|
  {
    hide Dependent;
    hide Do;
    if order == [] {
      assert |sorted| == 0 || At(sorted, 0) in sorted;
    } else {
      var at := FirstMoved(region, sorted, order, f);
      var rest := sorted[..at] + sorted[at + 1..];
      var first := region[order[0]];
      TailRearranges(region, sorted, order, at);
      hide Rearranges;
      assert Code(region, order)[1..] == Code(region, order[1..]);
      assert ([first] + Code(region, rest))[1..] == Code(region, rest);
      if Do(first, f).Some? {
        RearrangedSame(region, rest, order[1..], Do(first, f).value);
      }
    }
  }

  function At(s: seq<nat>, k: nat): nat {
    if k < |s| then s[k] else 0
  }

  /** The first instruction of the new order can be moved to the front of the old one. */
  lemma FirstMoved(region: seq<RuntimeInstr>, sorted: seq<nat>, order: seq<nat>, f: Frame) returns (at: nat)
    requires AllScalar(region) && Rearranges(region, sorted, order) && |order| > 0
    ensures at < |sorted| && sorted[at] == order[0] && Within(sorted[..at] + sorted[at + 1..], |region|)
    ensures Perform(Code(region, sorted), f)
      == Perform([region[order[0]]] + Code(region, sorted[..at] + sorted[at + 1..]), f)
  {
    hide Dependent;
    hide Perform;
    hide Code;
    var k := order[0];
    assert k in order;
    at :| 0 <= at < |sorted| && sorted[at] == k;
    EarlierIndependent(region, sorted, order, at);
    assert sorted == sorted[..at] + [k] + sorted[at + 1..];
    MoveIndex(region, sorted[..at], k, sorted[at + 1..], f);
  }

  lemma MoveIndex(region: seq<RuntimeInstr>, before: seq<nat>, k: nat, after: seq<nat>, f: Frame)
    requires AllScalar(region) && Within(before, |region|) && k < |region| && Within(after, |region|)
    requires forall i :: 0 <= i < |before| ==> !Dependent(region[before[i]], region[k])
    ensures Within(before + [k] + after, |region|) && Within(before + after, |region|)
    ensures Perform(Code(region, before + [k] + after), f) == Perform([region[k]] + Code(region, before + after), f)
  {
    hide Dependent;
    hide Perform;
    var x, y, z := Code(region, before), [region[k]], Code(region, after);
    assert Code(region, [k]) == y;
    CodeConcat(region, before, [k]);
    CodeConcat(region, before + [k], after);
    CodeConcat(region, before, after);
    hide Code;
    assert y + x + z == y + (x + z);
    MoveToFront(x, region[k], z, f);
  }

  lemma CodeConcat(region: seq<RuntimeInstr>, s: seq<nat>, t: seq<nat>)
    requires Within(s, |region|) && Within(t, |region|)
    ensures Within(s + t, |region|) && Code(region, s + t) == Code(region, s) + Code(region, t)
  {}

  /** What comes before the first instruction of the new order is independent of it. */
  lemma EarlierIndependent(region: seq<RuntimeInstr>, sorted: seq<nat>, order: seq<nat>, at: nat)
    requires Rearranges(region, sorted, order) && |order| > 0 && at < |sorted| && sorted[at] == order[0]
    ensures forall i :: 0 <= i < at ==> !Dependent(region[sorted[i]], region[order[0]])
  {
    hide Dependent;
    forall i | 0 <= i < at
      ensures !Dependent(region[sorted[i]], region[order[0]])
    {
      assert sorted[i] in order;
      var b :| 0 <= b < |order| && order[b] == sorted[i];
    }
  }

  lemma TailRearranges(region: seq<RuntimeInstr>, sorted: seq<nat>, order: seq<nat>, at: nat)
    requires Rearranges(region, sorted, order) && |order| > 0 && at < |sorted| && sorted[at] == order[0]
    ensures Rearranges(region, sorted[..at] + sorted[at + 1..], order[1..])
  {
    hide Dependent;
    var rest, tail := sorted[..at] + sorted[at + 1..], order[1..];
    assert order == [order[0]] + tail;
    assert sorted == sorted[..at] + [sorted[at]] + sorted[at + 1..];
    forall k: nat
      ensures k in tail <==> k in rest
    {
      if k in tail {
        assert k in sorted && k != order[0];
      }
      if k in rest {
        NotAt(sorted, at, k);
        assert k in order;
      }
    }
  }

  lemma NotAt(sorted: seq<nat>, at: nat, k: nat)
    requires forall i, j :: 0 <= i < j < |sorted| ==> sorted[i] < sorted[j]
    requires at < |sorted| && k in sorted[..at] + sorted[at + 1..]
    ensures k in sorted && k != sorted[at]
  {
    var rest := sorted[..at] + sorted[at + 1..];
    var i :| 0 <= i < |rest| && rest[i] == k;
    assert k == sorted[if i < at then i else i + 1];
  }

  /** Executing a pure region in any legal order gives the same slots, and traps exactly when the
      original order does. */
  lemma ScheduleSame(region: seq<RuntimeInstr>, order: seq<nat>, f: Frame)
    requires AllScalar(region) && IsSchedule(region, order)
    ensures Within(order, |region|) && Perform(Code(region, order), f) == Perform(region, f)
  {
    hide Dependent;
    var sorted := seq(|region|, k => k);
    assert forall k: nat :: k < |region| ==> sorted[k] == k;
    forall k | 0 <= k < |order|
      ensures order[k] < |region|
    {
      assert order[k] in order;
    }
    assert Code(region, sorted) == region;
    forall k: nat
      ensures k in order <==> k in sorted
    {
      assert k < |region| ==> sorted[k] in sorted;
    }
    forall a, b | 0 <= a < b < |order| && order[b] < order[a]
      ensures !Dependent(region[order[b]], region[order[a]])
    {
      assert !Edge(region, order[b], order[a]);
    }
    RearrangedSame(region, sorted, order, f);
  }
}
