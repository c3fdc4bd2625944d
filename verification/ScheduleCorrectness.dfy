/** `schedule_pure_regions`: schedule every maximal pure stretch of every block, and the proof that
    programs that differ in one rescheduled stretch behave alike. */
module ScheduleCorrectness {
  import opened Words
  import opened Ir
  import opened Semantics
  import opened Execution
  import opened Blocks
  import opened Permutations
  import opened Scheduler

  // ----- exchanging one region -----

  /** `q` is `p` with other pure code, equal as a whole, in the `n` places from `a`; no jump enters there
      except at `a`. */
  ghost predicate RegionSwapped(p: RuntimeProgram, q: RuntimeProgram, a: nat, n: nat) {
    && q.slots == p.slots && |q.instrs| == |p.instrs| && a + n <= |p.instrs|
    && (forall k :: 0 <= k < |p.instrs| && !(a <= k < a + n) ==> q.instrs[k] == p.instrs[k])
    && SamePerform(p.instrs[a..a + n], q.instrs[a..a + n])
    && (forall k :: a < k < a + n ==> !IsLeader(p, k))
  }

  ghost predicate SamePerform(c: seq<RuntimeInstr>, d: seq<RuntimeInstr>) {
    AllScalar(c) && AllScalar(d) && forall f :: Perform(d, f) == Perform(c, f)
  }

  ghost predicate CodeHere(p: RuntimeProgram, pc: nat, code: seq<RuntimeInstr>) {
    pc + |code| <= |p.instrs| && p.instrs[pc..pc + |code|] == code && AllScalar(code)
  }

  lemma FirstScalar(w: World, p: RuntimeProgram, s: State, code: seq<RuntimeInstr>)
    requires s.status == Running && CodeHere(p, s.pc, code) && code != []
    ensures Run(w, p, s, 1) == match Do(code[0], s.frame)
      case Some(f) => s.(pc := s.pc + 1, frame := f)
      case None => s.(status := Trapped)
    ensures CodeHere(p, s.pc + 1, code[1..])
  {
    assert p.instrs[s.pc] == code[0];
    ExecScalar(w, code[0], s.frame, s.trace);
    hide Exec;
    hide ScalarValue;
    assert Run(w, p, s, 1) == Step(w, p, Run(w, p, s, 0));
  }

  /** Running straight through scalar code. */
  lemma {:induction false} StraightLine(w: World, p: RuntimeProgram, s: State, code: seq<RuntimeInstr>)
    requires s.status == Running && CodeHere(p, s.pc, code)
    ensures match Perform(code, s.frame)
      case Some(f) => Run(w, p, s, |code|) == s.(pc := s.pc + |code|, frame := f)
      case None => Run(w, p, s, |code|).status == Trapped && Run(w, p, s, |code|).trace == s.trace
    decreases |code|
  {
    hide Step;
    hide Do;
    assert Run(w, p, s, 0) == s;
    if code != [] {
      FirstScalar(w, p, s, code);
      hide Run;
      hide CodeHere;
      var s' := Run(w, p, s, 1);
      RunSplit(w, p, s, 1, |code| - 1);
      if Do(code[0], s.frame).Some? {
        StraightLine(w, p, s', code[1..]);
      } else {
        RunStopped(w, p, s', |code| - 1);
      }
    }
  }

  /** Part of the way through, nothing has been output, and only a trap can have stopped the run. */
  lemma {:induction false} StraightLinePrefix(w: World, p: RuntimeProgram, s: State, code: seq<RuntimeInstr>, k: nat)
    requires s.status == Running && CodeHere(p, s.pc, code) && k <= |code|
    ensures var t := Run(w, p, s, k);
      t.trace == s.trace && (t.status == Running || (t.status == Trapped && Perform(code, s.frame).None?))
    decreases |code|
  {
    hide Step;
    hide Do;
    assert Run(w, p, s, 0) == s;
    if k > 0 {
      FirstScalar(w, p, s, code);
      hide Run;
      hide CodeHere;
      var s' := Run(w, p, s, 1);
      RunSplit(w, p, s, 1, k - 1);
      if Do(code[0], s.frame).Some? {
        StraightLinePrefix(w, p, s', code[1..], k - 1);
      } else {
        RunStopped(w, p, s', k - 1);
      }
    }
  }

  /** The two programs are in the same state outside the region, or have both trapped. */
  ghost predicate Synced(p: RuntimeProgram, a: nat, n: nat, s: State, t: State) {
    || (s == t && !(a < s.pc < a + n) && StackOfCalls(p, s))
    || (s.status == Trapped && t.status == Trapped && s.trace == t.trace)
  }

  ghost predicate AtRegion(a: nat, n: nat, s: State) {
    s.status == Running && s.pc == a && n > 0
  }

  lemma StepOutside(w: World, p: RuntimeProgram, q: RuntimeProgram, a: nat, n: nat, s: State, t: State)
    requires RegionSwapped(p, q, a, n) && Synced(p, a, n, s, t) && !AtRegion(a, n, s)
    ensures Synced(p, a, n, Step(w, p, s), Step(w, q, t))
  {
    hide StepAt;
    hide IsLeader;
    hide Perform;
    if s == t && s.status == Running && s.pc < |p.instrs| {
      assert q.instrs[s.pc] == p.instrs[s.pc];
      StepLands(w, p, s);
      StepFollows(w, p, s);
    }
  }

  lemma CrossRegion(w: World, p: RuntimeProgram, q: RuntimeProgram, a: nat, n: nat, s: State, t: State)
    requires RegionSwapped(p, q, a, n) && Synced(p, a, n, s, t) && AtRegion(a, n, s)
    ensures Synced(p, a, n, Run(w, p, s, n), Run(w, q, t, n))
    ensures Perform(p.instrs[a..a + n], s.frame).None? ==>
      Run(w, q, t, n).status == Trapped && Run(w, q, t, n).trace == s.trace
  {
    hide Run;
    hide Perform;
    StraightLine(w, p, s, p.instrs[a..a + n]);
    StraightLine(w, q, t, q.instrs[a..a + n]);
  }

  /** Some earlier point of `p`'s run, at most a region away, is matched by a point of `q`'s run. */
  lemma {:induction false} Catch(w: World, p: RuntimeProgram, q: RuntimeProgram, a: nat, n: nat, f: Frame, k: nat)
      returns (base: nat, m: nat)
    requires RegionSwapped(p, q, a, n)
    ensures base <= k && Synced(p, a, n, Run(w, p, Start(f), base), Run(w, q, Start(f), m))
    ensures base < k ==> AtRegion(a, n, Run(w, p, Start(f), base)) && k - base < n
  {
    hide Step;
    hide RegionSwapped;
    if k == 0 {
      base, m := 0, 0;
    } else {
      base, m := Catch(w, p, q, a, n, f, k - 1);
      var s, t := Run(w, p, Start(f), base), Run(w, q, Start(f), m);
      if !AtRegion(a, n, s) {
        StepOutside(w, p, q, a, n, s, t);
        base, m := k, m + 1;
      } else if k - base == n {
        CrossRegion(w, p, q, a, n, s, t);
        RunSplit(w, p, Start(f), base, n);
        RunSplit(w, q, Start(f), m, n);
        base, m := k, m + n;
      }
    }
  }

  lemma RegionSimulates(p: RuntimeProgram, q: RuntimeProgram, a: nat, n: nat)
    requires RegionSwapped(p, q, a, n)
    ensures Simulates(p, q)
  {
    hide Run;
    hide RegionSwapped;
    forall w: World, f: Frame, k: nat
      ensures Matched(w, q, f, Obs(Run(w, p, Start(f), k)))
    {
      var base, m := Catch(w, p, q, a, n, f, k);
      var s, t := Run(w, p, Start(f), base), Run(w, q, Start(f), m);
      if base == k {
        assert Obs(t) == Obs(s);
      } else {
        InsideRegion(w, p, q, a, n, s, t, k - base);
        RunSplit(w, p, Start(f), base, k - base);
        RunSplit(w, q, Start(f), m, n);
        assert Obs(Run(w, q, Start(f), m)) == Obs(Run(w, p, Start(f), k))
          || Obs(Run(w, q, Start(f), m + n)) == Obs(Run(w, p, Start(f), k));
      }
    }
  }

  lemma InsideRegion(w: World, p: RuntimeProgram, q: RuntimeProgram, a: nat, n: nat, s: State, t: State, k: nat)
    requires RegionSwapped(p, q, a, n) && Synced(p, a, n, s, t) && AtRegion(a, n, s) && k <= n
    ensures Obs(Run(w, p, s, k)) == Obs(t) || Obs(Run(w, p, s, k)) == Obs(Run(w, q, t, n))
  {
    hide Run;
    hide Perform;
    StraightLinePrefix(w, p, s, p.instrs[a..a + n], k);
    CrossRegion(w, p, q, a, n, s, t);
  }

  lemma SwappedSymmetric(p: RuntimeProgram, q: RuntimeProgram, a: nat, n: nat)
    requires RegionSwapped(p, q, a, n)
    ensures RegionSwapped(q, p, a, n)
  {
    hide Perform;
    forall k | a < k < a + n
      ensures !IsLeader(q, k)
    {
      SameLeaders(p, q, k);
    }
  }

  /** Programs with the same control instructions have the same leaders. */
  lemma SameLeaders(p: RuntimeProgram, q: RuntimeProgram, k: nat)
    requires |q.instrs| == |p.instrs|
    requires forall j :: 0 <= j < |p.instrs| ==> SameControl(p.instrs[j], q.instrs[j])
    ensures IsLeader(p, k) <==> IsLeader(q, k)
  {
    if k > 0 && k < |p.instrs| {
      assert SameControl(p.instrs[k - 1], q.instrs[k - 1]);
    }
    if IsTarget(p, k, |p.instrs|) {
      var j :| 0 <= j < |p.instrs| && TargetOf(p.instrs[j]) == Some(k);
      assert TargetOf(q.instrs[j]) == Some(k);
    }
    if IsTarget(q, k, |p.instrs|) {
      var j :| 0 <= j < |p.instrs| && TargetOf(q.instrs[j]) == Some(k);
      assert TargetOf(p.instrs[j]) == Some(k);
    }
  }

  predicate SameControl(i: RuntimeInstr, j: RuntimeInstr) {
    IsControl(i) == IsControl(j) && TargetOf(i) == TargetOf(j)
  }

  lemma RegionSameBehaviour(p: RuntimeProgram, q: RuntimeProgram, a: nat, n: nat)
    requires RegionSwapped(p, q, a, n)
    ensures SameBehaviour(p, q)
  {
    SwappedSymmetric(p, q, a, n);
    RegionSimulates(p, q, a, n);
    RegionSimulates(q, p, a, n);
  }

  // ----- the pass -----

  predicate PureBetween(code: seq<RuntimeInstr>, a: nat, b: nat) {
    b <= |code| && forall k :: a <= k < b ==> IsSchedulable(code[k])
  }

  /** The longest pure stretches of the blocks. */
  ghost predicate MaximalRegion(p: RuntimeProgram, a: nat, b: nat) {
    && a < b <= |p.instrs| && SameBlock(p, a, b - 1) && PureBetween(p.instrs, a, b)
    && (IsLeader(p, a) || a == 0 || !IsSchedulable(p.instrs[a - 1]))
    && (b == |p.instrs| || IsLeader(p, b) || !IsSchedulable(p.instrs[b]))
  }

  /** The multiply, add and 32-bit mask that the x86 selector fuses; such stretches are left alone. */
  predicate IsAffineTriple(a: RuntimeInstr, b: RuntimeInstr, c: RuntimeInstr) {
    && a.BinOp? && a.op.Mul? && a.rhs.Imm?
    && b.BinOp? && b.op.Add? && b.lhs == Slot(a.dst) && b.rhs.Imm?
    && c.BinOp? && c.op.BitAnd? && c.lhs == Slot(b.dst) && c.rhs == Imm(0xFFFF_FFFF)
  }

  predicate HasAffineTriple(region: seq<RuntimeInstr>) {
    exists k :: 0 <= k < |region| - 2 && IsAffineTriple(region[k], region[k + 1], region[k + 2])
  }

  /** What the pass does to one stretch. */
  ghost predicate RegionScheduled(code: seq<RuntimeInstr>, region: seq<RuntimeInstr>, cost: CostModel) {
    if |region| < 3 || HasAffineTriple(region) then code == region
    else exists order :: OrderedBy(code, region, order, cost)
  }

  ghost predicate OrderedBy(code: seq<RuntimeInstr>, region: seq<RuntimeInstr>, order: seq<nat>, cost: CostModel) {
    && IsSchedule(region, order) && Within(order, |region|)
    && code == if cost.accepts(region, order) then Code(region, order) else region
  }

  ghost predicate ScheduledBefore(p: RuntimeProgram, code: seq<RuntimeInstr>, cost: CostModel, n: nat) {
    && |code| == |p.instrs|
    && (forall k :: 0 <= k < |code| && (k >= n || !IsSchedulable(p.instrs[k])) ==> code[k] == p.instrs[k])
    && (forall k :: 0 <= k < |code| && IsSchedulable(p.instrs[k]) ==> IsSchedulable(code[k]))
    && (forall a: nat, b: nat :: MaximalRegion(p, a, b) && b <= n ==> RegionScheduled(code[a..b], p.instrs[a..b], cost))
  }

  /** Everything that is not pure stays in place; every maximal stretch is scheduled. */
  ghost predicate Scheduled(p: RuntimeProgram, q: RuntimeProgram, cost: CostModel) {
    q.slots == p.slots && ScheduledBefore(p, q.instrs, cost, |p.instrs|)
  }

  lemma MaximalUnique(p: RuntimeProgram, a: nat, b: nat, c: nat, d: nat, k: nat)
    requires MaximalRegion(p, a, b) && MaximalRegion(p, c, d) && a <= k < b && c <= k < d
    ensures a == c && b == d
  {
    hide IsLeader;
    MaximalNotInside(p, a, b, c, d);
    MaximalNotInside(p, c, d, a, b);
  }

  /** A maximal stretch neither starts nor ends strictly inside another one. */
  lemma MaximalNotInside(p: RuntimeProgram, a: nat, b: nat, c: nat, d: nat)
    requires MaximalRegion(p, a, b) && MaximalRegion(p, c, d)
    ensures !(a < c < b) && !(a < d < b)
  {
    hide IsLeader;
  }

  method SchedulePureRegions(p: RuntimeProgram, cost: CostModel) returns (q: RuntimeProgram)
    ensures Scheduled(p, q, cost) && SameBehaviour(p, q)
  {
    var g := BuildBlockGraph(p);
    var code := p.instrs;
    SameBehaviourReflexive(p);
    ghost var n := 0;
    for block := 0 to |g.starts|
      invariant n == if block < |g.starts| then g.starts[block] else |p.instrs|
      invariant ScheduledBefore(p, code, cost, n)
      invariant SameBehaviour(p, RuntimeProgram(p.slots, code))
    {
      code := ScheduleBlock(p, g, block, code, cost);
      n := g.End(block);
    }
    q := RuntimeProgram(p.slots, code);
  }

  method ScheduleBlock(p: RuntimeProgram, g: BlockGraph, block: nat, before: seq<RuntimeInstr>, cost: CostModel)
      returns (code: seq<RuntimeInstr>)
    requires g.Cuts(p) && block < |g.starts|
    requires ScheduledBefore(p, before, cost, g.starts[block]) && SameBehaviour(p, RuntimeProgram(p.slots, before))
    ensures ScheduledBefore(p, code, cost, g.End(block)) && SameBehaviour(p, RuntimeProgram(p.slots, code))
  {
    code := before;
    BlockBounds(p, g, block);
    var cursor := g.starts[block];
    var end := g.End(block);
    while cursor < end
      invariant g.starts[block] <= cursor <= end
      invariant cursor == g.starts[block] || cursor == end || !IsSchedulable(p.instrs[cursor])
        || !IsSchedulable(p.instrs[cursor - 1])
      invariant ScheduledBefore(p, code, cost, cursor) && SameBehaviour(p, RuntimeProgram(p.slots, code))
    {
      if !IsSchedulable(p.instrs[cursor]) {
        SkipOne(p, code, cost, cursor);
        cursor := cursor + 1;
        continue;
      }
      var start := cursor;
      while cursor < end && IsSchedulable(p.instrs[cursor])
        invariant start <= cursor <= end
        invariant PureBetween(p.instrs, start, cursor)
      {
        cursor := cursor + 1;
      }
      RegionFound(p, g, block, start, cursor);
      code := ScheduleOne(p, code, cost, start, cursor);
    }
  }

  lemma BlockBounds(p: RuntimeProgram, g: BlockGraph, b: nat)
    requires g.Cuts(p) && b < |g.starts|
    ensures g.starts[b] <= g.End(b) <= |p.instrs|
  {
    assert g.starts[b] in g.starts;
    if b + 1 < |g.starts| {
      assert g.starts[b + 1] in g.starts;
    }
  }

  lemma SkipOne(p: RuntimeProgram, code: seq<RuntimeInstr>, cost: CostModel, n: nat)
    requires n < |p.instrs| && ScheduledBefore(p, code, cost, n) && !IsSchedulable(p.instrs[n])
    ensures ScheduledBefore(p, code, cost, n + 1)
  {
    hide RegionScheduled;
    hide IsLeader;
    forall a: nat, b: nat | MaximalRegion(p, a, b) && b <= n + 1
      ensures RegionScheduled(code[a..b], p.instrs[a..b], cost)
    {
      assert b != n + 1;
    }
  }

  lemma RegionFound(p: RuntimeProgram, g: BlockGraph, block: nat, start: nat, end: nat)
    requires g.Cuts(p) && block < |g.starts| && g.starts[block] <= start < end <= g.End(block)
    requires PureBetween(p.instrs, start, end)
    requires start == g.starts[block] || !IsSchedulable(p.instrs[start - 1])
    requires end == g.End(block) || end >= |p.instrs| || !IsSchedulable(p.instrs[end])
    ensures MaximalRegion(p, start, end)
  {
    BlockUnique(g, p, block, start);
    BlockUnique(g, p, block, end - 1);
    SameBlockOf(g, p, start, end - 1);
    assert g.starts[block] in g.starts;
    if block + 1 < |g.starts| {
      assert g.starts[block + 1] in g.starts;
    }
  }

  method ScheduleOne(p: RuntimeProgram, before: seq<RuntimeInstr>, cost: CostModel, start: nat, end: nat)
      returns (code: seq<RuntimeInstr>)
    requires MaximalRegion(p, start, end)
    requires ScheduledBefore(p, before, cost, start) && SameBehaviour(p, RuntimeProgram(p.slots, before))
    ensures ScheduledBefore(p, code, cost, end) && SameBehaviour(p, RuntimeProgram(p.slots, code))
  {
    hide SameBehaviour;
    hide IsLeader;
    PureRegion(p, before, cost, start, end);
    var region := before[start..end];
    assert region == p.instrs[start..end];
    code := before;
    assert before == before[..start] + region + before[end..];
    var scheduled := region;
    if end - start >= 3 && !HasAffineTriple(region) {
      var result;
      ghost var order;
      result, order := ScheduleRegion(region, cost);
      PermutationSize(order, |region|);
      if result.Some? {
        scheduled := Code(region, result.value);
        code := before[..start] + scheduled + before[end..];
      }
      assert code[start..end] == scheduled && code[..start] == before[..start] && code[end..] == before[end..];
      assert OrderedBy(scheduled, region, order, cost);
      RegionExchanged(p, before, code, start, end, order, cost);
    } else {
      SameBehaviourReflexive(RuntimeProgram(p.slots, before));
    }
    SameBehaviourTransitive(p, RuntimeProgram(p.slots, before), RuntimeProgram(p.slots, code));
    OneMoreRegion(p, before, scheduled, cost, start, end);
  }

  lemma RegionExchanged(p: RuntimeProgram, before: seq<RuntimeInstr>, code: seq<RuntimeInstr>, start: nat, end: nat,
      order: seq<nat>, cost: CostModel)
    requires MaximalRegion(p, start, end) && ScheduledBefore(p, before, cost, start)
    requires |code| == |before| && code[..start] == before[..start] && code[end..] == before[end..]
    requires OrderedBy(code[start..end], before[start..end], order, cost)
    ensures SameBehaviour(RuntimeProgram(p.slots, before), RuntimeProgram(p.slots, code))
  {
    hide SameBehaviour;
    hide RegionSwapped;
    RegionIsSwapped(p, before, code, start, end, order, cost);
    RegionSameBehaviour(RuntimeProgram(p.slots, before), RuntimeProgram(p.slots, code), start, end - start);
  }

  lemma RegionIsSwapped(p: RuntimeProgram, before: seq<RuntimeInstr>, code: seq<RuntimeInstr>, start: nat, end: nat,
      order: seq<nat>, cost: CostModel)
    requires MaximalRegion(p, start, end) && ScheduledBefore(p, before, cost, start)
    requires |code| == |before| && code[..start] == before[..start] && code[end..] == before[end..]
    requires OrderedBy(code[start..end], before[start..end], order, cost)
    ensures RegionSwapped(RuntimeProgram(p.slots, before), RuntimeProgram(p.slots, code), start, end - start)
  {
    NoLeaderInside(p, before, cost, start, end);
    PureRegion(p, before, cost, start, end);
    hide IsLeader;
    hide ScheduledBefore;
    hide PureBetween;
    ReorderedSame(before[start..end], code[start..end], order, cost);
    hide OrderedBy;
    forall k | 0 <= k < |before| && !(start <= k < end)
      ensures code[k] == before[k]
    {
      assert k < start ==> code[..start][k] == before[..start][k];
      assert k >= end ==> code[end..][k - end] == before[end..][k - end];
    }
  }

  lemma NoLeaderInside(p: RuntimeProgram, before: seq<RuntimeInstr>, cost: CostModel, start: nat, end: nat)
    requires MaximalRegion(p, start, end) && ScheduledBefore(p, before, cost, start)
    ensures forall k :: start < k < end ==> !IsLeader(RuntimeProgram(p.slots, before), k)
  {
    forall j | 0 <= j < |p.instrs|
      ensures SameControl(p.instrs[j], before[j])
    {
      assert IsSchedulable(p.instrs[j]) ==> IsSchedulable(before[j]);
    }
    forall k | start < k < end
      ensures !IsLeader(RuntimeProgram(p.slots, before), k)
    {
      SameLeaders(p, RuntimeProgram(p.slots, before), k);
    }
  }

  lemma PureRegion(p: RuntimeProgram, before: seq<RuntimeInstr>, cost: CostModel, start: nat, end: nat)
    requires MaximalRegion(p, start, end) && ScheduledBefore(p, before, cost, start)
    ensures PureBetween(before, start, end) && AllScalar(before[start..end])
  {
    hide IsLeader;
  }

  lemma ReorderedSame(region: seq<RuntimeInstr>, code: seq<RuntimeInstr>, order: seq<nat>, cost: CostModel)
    requires AllScalar(region) && OrderedBy(code, region, order, cost)
    ensures SamePerform(region, code)
  {
    hide IsSchedule;
    forall f
      ensures Perform(code, f) == Perform(region, f)
    {
      ScheduleSame(region, order, f);
    }
  }

  lemma OneMoreRegion(p: RuntimeProgram, before: seq<RuntimeInstr>, scheduled: seq<RuntimeInstr>, cost: CostModel,
      start: nat, end: nat)
    requires MaximalRegion(p, start, end) && ScheduledBefore(p, before, cost, start)
    requires |scheduled| == end - start && PureBetween(scheduled, 0, end - start)
    requires RegionScheduled(scheduled, p.instrs[start..end], cost)
    ensures ScheduledBefore(p, before[..start] + scheduled + before[end..], cost, end)
  {
    hide RegionScheduled;
    var code := before[..start] + scheduled + before[end..];
    OthersKept(p, before, scheduled, cost, start, end);
    hide IsLeader;
    hide PureBetween;
    forall a: nat, b: nat | MaximalRegion(p, a, b) && b <= end
      ensures RegionScheduled(code[a..b], p.instrs[a..b], cost)
    {
      if b <= start {
        SliceBefore(before[..start], scheduled + before[end..], a, b);
        assert code == before[..start] + (scheduled + before[end..]);
        assert before[..start][a..b] == before[a..b];
      } else {
        MaximalUnique(p, a, b, start, end, b - 1);
        assert code[start..end] == scheduled;
      }
    }
  }

  lemma SliceBefore(first: seq<RuntimeInstr>, rest: seq<RuntimeInstr>, a: nat, b: nat)
    requires a <= b <= |first|
    ensures (first + rest)[a..b] == first[a..b]
  {}

  lemma OthersKept(p: RuntimeProgram, before: seq<RuntimeInstr>, scheduled: seq<RuntimeInstr>, cost: CostModel,
      start: nat, end: nat)
    requires MaximalRegion(p, start, end) && ScheduledBefore(p, before, cost, start)
    requires |scheduled| == end - start && PureBetween(scheduled, 0, end - start)
    ensures var code := before[..start] + scheduled + before[end..];
      && |code| == |p.instrs|
      && (forall k :: 0 <= k < |code| && (k >= end || !IsSchedulable(p.instrs[k])) ==> code[k] == p.instrs[k])
      && (forall k :: 0 <= k < |code| && IsSchedulable(p.instrs[k]) ==> IsSchedulable(code[k]))
  {
    hide RegionScheduled;
    hide IsLeader;
    hide IsSchedulable;
  }
}
