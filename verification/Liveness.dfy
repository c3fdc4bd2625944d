/** The liveness fixpoint of `compute_live_intervals`, and the proof that it finds exactly the slots that
    some path of the control flow reads before it writes them. */
module Liveness {
  import opened Words
  import opened Ir
  import opened Semantics
  import opened Blocks
  import opened Permutations

  type SlotSet = set<nat>

  function Reads(p: RuntimeProgram, i: nat): SlotSet
    requires i < |p.instrs|
  {
    Elements(ReadSlots(p.instrs[i]))
  }

  function Writes(p: RuntimeProgram, i: nat): SlotSet
    requires i < |p.instrs|
  {
    Elements(WriteSlots(p.instrs[i]))
  }

  // ----- the definition -----

  /** Within `n` steps along the control flow from instruction `i`, slot `x` is read, and not written before. */
  ghost predicate ReadAhead(p: RuntimeProgram, i: nat, x: nat, n: nat)
    requires i < |p.instrs|
    decreases n
  {
    n > 0 &&
    (x in Reads(p, i) || (x !in Writes(p, i) && exists j: nat :: StaticNext(p, i, j) && ReadAhead(p, j, x, n - 1)))
  }

  /** The content of slot `x` just before instruction `i` may still matter. */
  ghost predicate IsLive(p: RuntimeProgram, i: nat, x: nat)
    requires i < |p.instrs|
  {
    exists n: nat :: ReadAhead(p, i, x, n)
  }

  // ----- inside a block -----

  /** The slots live before instruction `i` if those live before `end` are `out`. */
  ghost function LiveFrom(p: RuntimeProgram, out: SlotSet, i: nat, end: nat): SlotSet
    requires end <= |p.instrs|
    decreases end - i
  {
    if i >= end then out else (LiveFrom(p, out, i + 1, end) - Writes(p, i)) + Reads(p, i)
  }

  /** `use` and `def` summarise the instructions from `start` to `i`. */
  ghost predicate Summary(p: RuntimeProgram, start: nat, i: nat, use: SlotSet, def: SlotSet)
    requires start <= i <= |p.instrs|
  {
    forall out: SlotSet :: LiveFrom(p, out, start, i) == use + (out - def)
  }

  lemma {:induction false} LiveSplit(p: RuntimeProgram, out: SlotSet, start: nat, i: nat, end: nat)
    requires start <= i <= end <= |p.instrs|
    ensures LiveFrom(p, out, start, end) == LiveFrom(p, LiveFrom(p, out, i, end), start, i)
    decreases i - start
  {
    hide Reads;
    hide Writes;
    if start < i {
      LiveSplit(p, out, start + 1, i, end);
    }
  }

  lemma {:induction false} LiveMonotone(p: RuntimeProgram, out: SlotSet, out': SlotSet, i: nat, end: nat)
    requires end <= |p.instrs| && out <= out'
    ensures LiveFrom(p, out, i, end) <= LiveFrom(p, out', i, end)
    decreases end - i
  {
    hide Reads;
    hide Writes;
    if i < end {
      LiveMonotone(p, out, out', i + 1, end);
    }
  }

  lemma ReadsWithin(p: RuntimeProgram, i: nat)
    requires InRange(p) && i < |p.instrs|
    ensures Reads(p, i) <= Nodes(p.slots) && Writes(p, i) <= Nodes(p.slots)
  {
    assert InstrInRange(p, p.instrs[i]);
    hide ReadSlots;
    hide WriteSlots;
  }

  lemma SetWithin(rest: SlotSet, removed: SlotSet, added: SlotSet, whole: SlotSet)
    requires rest <= whole && added <= whole
    ensures (rest - removed) + added <= whole
  {}

  lemma {:induction false} LiveWithin(p: RuntimeProgram, out: SlotSet, i: nat, end: nat)
    requires InRange(p) && end <= |p.instrs| && out <= Nodes(p.slots)
    ensures LiveFrom(p, out, i, end) <= Nodes(p.slots)
    decreases end - i
  {
    hide Nodes;
    hide Reads;
    hide Writes;
    hide InRange;
    if i < end {
      LiveWithin(p, out, i + 1, end);
      ReadsWithin(p, i);
      SetWithin(LiveFrom(p, out, i + 1, end), Writes(p, i), Reads(p, i), Nodes(p.slots));
    }
  }

  lemma SummaryStep(p: RuntimeProgram, start: nat, i: nat, use: SlotSet, def: SlotSet)
    requires start <= i < |p.instrs| && Summary(p, start, i, use, def)
    ensures Summary(p, start, i + 1, use + (Reads(p, i) - def), def + Writes(p, i))
  {
    forall out: SlotSet
      ensures LiveFrom(p, out, start, i + 1) == (use + (Reads(p, i) - def)) + (out - (def + Writes(p, i)))
    {
      LiveSplit(p, out, start, i, i + 1);
      assert LiveFrom(p, out, i + 1, i + 1) == out;
      var before := LiveFrom(p, out, i, i + 1);
      assert before == (out - Writes(p, i)) + Reads(p, i);
      assert LiveFrom(p, before, start, i) == use + (before - def);
    }
  }

  /** `block_use` and `block_def` of one block. */
  method Summarise(p: RuntimeProgram, start: nat, end: nat) returns (use: SlotSet, def: SlotSet)
    requires start <= end <= |p.instrs|
    ensures Summary(p, start, end, use, def)
  {
    use, def := {}, {};
    for i := start to end
      invariant Summary(p, start, i, use, def)
    {
      SummaryStep(p, start, i, use, def);
      hide Summary;
      use := use + (Elements(ReadSlots(p.instrs[i])) - def);
      def := def + Elements(WriteSlots(p.instrs[i]));
    }
  }

  // ----- across blocks -----

  datatype Live = Live(into: seq<SlotSet>, out: seq<SlotSet>)

  ghost predicate Sized(g: BlockGraph, live: Live) {
    |live.into| == |live.out| == |g.starts| == |g.successors|
  }

  ghost predicate InSome(sets: seq<SlotSet>, from: seq<nat>, x: nat) {
    exists k :: 0 <= k < |from| && from[k] < |sets| && x in sets[from[k]]
  }

  /** What a visit to block `b` would make of it is at least what it has. */
  ghost predicate Growing(p: RuntimeProgram, g: BlockGraph, live: Live, b: nat)
    requires g.Cuts(p) && Sized(g, live) && b < |g.starts|
  {
    && live.out[b] <= Nodes(p.slots) && live.into[b] <= Nodes(p.slots)
    && (forall x :: x in live.out[b] ==> InSome(live.into, g.successors[b], x))
    && g.End(b) <= |p.instrs| && live.into[b] <= LiveFrom(p, live.out[b], g.starts[b], g.End(b))
  }

  /** A visit to block `b` changes nothing. */
  ghost predicate Settled(p: RuntimeProgram, g: BlockGraph, live: Live, b: nat)
    requires g.Cuts(p) && Sized(g, live) && b < |g.starts|
  {
    && (forall x :: x in live.out[b] <==> InSome(live.into, g.successors[b], x))
    && g.End(b) <= |p.instrs| && live.into[b] == LiveFrom(p, live.out[b], g.starts[b], g.End(b))
  }

  ghost predicate AllGrowing(p: RuntimeProgram, g: BlockGraph, live: Live)
    requires g.Cuts(p) && Sized(g, live)
  {
    forall b :: 0 <= b < |g.starts| ==> Growing(p, g, live, b)
  }

  ghost predicate IsFixpoint(p: RuntimeProgram, g: BlockGraph, live: Live)
    requires g.Cuts(p) && Sized(g, live)
  {
    forall b :: 0 <= b < |g.starts| ==> Settled(p, g, live, b)
  }

  /** Only live slots are in the sets. */
  ghost predicate AllLive(p: RuntimeProgram, g: BlockGraph, live: Live)
    requires g.Cuts(p) && Sized(g, live)
  {
    && (forall b: nat, x: nat :: b < |g.starts| && x in live.into[b] ==> LiveOnEntry(p, g, b, x))
    && (forall b: nat, x: nat :: b < |g.starts| && x in live.out[b] ==> LiveOnExit(p, g, b, x))
  }

  ghost predicate LiveOnEntry(p: RuntimeProgram, g: BlockGraph, b: nat, x: nat)
    requires b < |g.starts|
  {
    g.starts[b] < |p.instrs| && IsLive(p, g.starts[b], x)
  }

  ghost predicate LiveOnExit(p: RuntimeProgram, g: BlockGraph, b: nat, x: nat)
    requires b < |g.starts|
  {
    exists c: nat :: c < |g.starts| && Edge(p, g.starts, b, c) && LiveOnEntry(p, g, c, x)
  }

  ghost function Weight(sets: seq<SlotSet>): nat {
    if sets == [] then 0 else Weight(sets[..|sets| - 1]) + |sets[|sets| - 1]|
  }

  lemma {:induction false} WeightGrows(sets: seq<SlotSet>, b: nat, s: SlotSet)
    requires b < |sets| && sets[b] <= s
    ensures Weight(sets[b := s]) >= Weight(sets)
    ensures s != sets[b] ==> Weight(sets[b := s]) > Weight(sets)
  {
    var sets' := sets[b := s];
    assert s == sets[b] + (s - sets[b]);
    if b < |sets| - 1 {
      WeightGrows(sets[..|sets| - 1], b, s);
      assert sets'[..|sets| - 1] == sets[..|sets| - 1][b := s];
    } else {
      assert sets'[..|sets| - 1] == sets[..|sets| - 1];
      assert s != sets[b] ==> s - sets[b] != {};
    }
  }

  lemma {:induction false} WeightBound(sets: seq<SlotSet>, n: nat)
    requires forall b :: 0 <= b < |sets| ==> sets[b] <= Nodes(n)
    ensures Weight(sets) <= |sets| * n
  {
    if sets != [] {
      WeightBound(sets[..|sets| - 1], n);
      var last := sets[|sets| - 1];
      assert Nodes(n) == last + (Nodes(n) - last);
      assert |sets| * n == (|sets| - 1) * n + n;
    }
  }

  // ----- liveness inside a block is what the definition says -----

  /** Before the end of a block there is one way on: to the next instruction. */
  lemma InsideBlock(p: RuntimeProgram, g: BlockGraph, i: nat, j: nat)
    requires g.Valid(p) && i < |p.instrs| && i + 1 < g.End(g.block_of[i])
    ensures StaticNext(p, i, j) <==> j == i + 1
  {
    var b := g.block_of[i];
    BlockNonempty(g, p, b);
    BlockUnique(g, p, b, i + 1);
    SameBlockOf(g, p, i, i + 1);
    assert !IsLeader(p, i + 1);
  }

  /** From the last instruction of a block, control goes to the first instruction of its successors. */
  lemma AtBlockEnd(p: RuntimeProgram, g: BlockGraph, b: nat, j: nat)
    requires g.Valid(p) && b < |g.starts| && |p.instrs| > 0
    ensures 0 < g.End(b) <= |p.instrs|
    ensures StaticNext(p, g.End(b) - 1, j) <==>
      exists c: nat :: c < |g.starts| && Edge(p, g.starts, b, c) && j == g.starts[c]
  {
    BlockNonempty(g, p, b);
    if StaticNext(p, g.End(b) - 1, j) {
      LeavingBlock(g, p, g.End(b) - 1, j);
      assert InBlock(g.starts, |g.block_of|, g.block_of[j], j);
      assert Edge(p, g.starts, b, g.block_of[j]);
    }
  }

  lemma {:induction false} InLiveFrom(p: RuntimeProgram, g: BlockGraph, b: nat, i: nat, x: nat, out: SlotSet)
    requires g.Valid(p) && b < |g.starts| && g.starts[b] <= i < g.End(b) && g.End(b) <= |p.instrs|
    requires x in LiveFrom(p, out, i, g.End(b))
    requires x in out ==> LiveOnExit(p, g, b, x)
    ensures IsLive(p, i, x)
    decreases g.End(b) - i
  {
    BlockUnique(g, p, b, i);
    hide IsLive;
    hide Edge;
    hide Reads;
    hide Writes;
    if x in Reads(p, i) {
      LiveHere(p, i, x);
    } else if i + 1 < g.End(b) {
      InLiveFrom(p, g, b, i + 1, x, out);
      InsideBlock(p, g, i, i + 1);
      hide StaticNext;
      LiveBefore(p, i, i + 1, x);
    } else {
      assert x in out;
      var c: nat :| c < |g.starts| && Edge(p, g.starts, b, c) && LiveOnEntry(p, g, c, x);
      AtBlockEnd(p, g, b, g.starts[c]);
      hide StaticNext;
      LiveBefore(p, i, g.starts[c], x);
    }
  }

  lemma LiveHere(p: RuntimeProgram, i: nat, x: nat)
    requires i < |p.instrs| && x in Reads(p, i)
    ensures IsLive(p, i, x)
  {
    hide Reads;
    assert ReadAhead(p, i, x, 1);
  }

  lemma LiveBefore(p: RuntimeProgram, i: nat, j: nat, x: nat)
    requires i < |p.instrs| && StaticNext(p, i, j) && IsLive(p, j, x) && x !in Writes(p, i)
    ensures IsLive(p, i, x)
  {
    assert j < |p.instrs|;
    hide Reads;
    hide Writes;
    hide StaticNext;
    var n: nat :| ReadAhead(p, j, x, n);
    assert ReadAhead(p, i, x, n + 1);
  }

  /** What is live before the first instruction of a successor is live on exit. */
  lemma LiveAcross(p: RuntimeProgram, g: BlockGraph, live: Live, b: nat, j: nat, x: nat)
    requires g.Valid(p) && Sized(g, live) && IsFixpoint(p, g, live) && b < |g.starts| && |p.instrs| > 0
    requires g.End(b) > 0 && g.End(b) - 1 < |p.instrs| && StaticNext(p, g.End(b) - 1, j)
    requires g.End(g.block_of[j]) <= |p.instrs| && x in LiveFrom(p, live.out[g.block_of[j]], j, g.End(g.block_of[j]))
    ensures x in live.out[b]
  {
    AtBlockEnd(p, g, b, j);
    var c: nat :| c < |g.starts| && Edge(p, g.starts, b, c) && j == g.starts[c];
    BlockNonempty(g, p, c);
    hide LiveFrom;
    assert Settled(p, g, live, c) && Settled(p, g, live, b);
    assert c in g.successors[b];
    assert x in live.into[c];
    var k: nat :| k < |g.successors[b]| && g.successors[b][k] == c;
    assert InSome(live.into, g.successors[b], x);
  }

  /** In a fixpoint, a slot that is read ahead is in the set. */
  lemma {:induction false} ReadAheadInLive(p: RuntimeProgram, g: BlockGraph, live: Live, i: nat, x: nat, n: nat)
    requires g.Valid(p) && Sized(g, live) && IsFixpoint(p, g, live) && i < |p.instrs| && ReadAhead(p, i, x, n)
    ensures g.End(g.block_of[i]) <= |p.instrs| && x in LiveFrom(p, live.out[g.block_of[i]], i, g.End(g.block_of[i]))
    decreases n
  {
    var b := g.block_of[i];
    BlockNonempty(g, p, b);
    if x !in Reads(p, i) {
      var j: nat :| StaticNext(p, i, j) && ReadAhead(p, j, x, n - 1);
      hide StaticNext;
      ReadAheadInLive(p, g, live, j, x, n - 1);
      LiveBack(p, g, live, i, j, x);
    }
  }

  lemma LiveBack(p: RuntimeProgram, g: BlockGraph, live: Live, i: nat, j: nat, x: nat)
    requires g.Valid(p) && Sized(g, live) && IsFixpoint(p, g, live) && i < |p.instrs| && StaticNext(p, i, j)
    requires g.End(g.block_of[j]) <= |p.instrs| && x in LiveFrom(p, live.out[g.block_of[j]], j, g.End(g.block_of[j]))
    ensures g.End(g.block_of[i]) <= |p.instrs|
    ensures x in LiveFrom(p, live.out[g.block_of[i]], i + 1, g.End(g.block_of[i]))
  {
    var b := g.block_of[i];
    BlockNonempty(g, p, b);
    if i + 1 < g.End(b) {
      InsideBlock(p, g, i, j);
      BlockUnique(g, p, b, j);
    } else {
      LiveAcross(p, g, live, b, j, x);
    }
  }

  // ----- the algorithm -----

  method LiveOut(g: BlockGraph, into: seq<SlotSet>, b: nat) returns (out: SlotSet)
    requires b < |g.successors|
    ensures forall x :: x in out <==> InSome(into, g.successors[b], x)
  {
    out := {};
    var succ := g.successors[b];
    for k := 0 to |succ|
      invariant forall x :: x in out <==> InSome(into, succ[..k], x)
    {
      forall x
        ensures InSome(into, succ[..k + 1], x) <==>
          InSome(into, succ[..k], x) || (succ[k] < |into| && x in into[succ[k]])
      {
        assert succ[..k + 1] == succ[..k] + [succ[k]];
        assert (succ[..k] + [succ[k]])[k] == succ[k];
        if InSome(into, succ[..k], x) {
          var j :| 0 <= j < k && succ[..k][j] < |into| && x in into[succ[..k][j]];
          assert (succ[..k] + [succ[k]])[j] == succ[..k][j];
        }
      }
      if succ[k] < |into| {
        out := out + into[succ[k]];
      }
    }
    assert succ[..|succ|] == succ;
  }

  lemma LargerInto(into: seq<SlotSet>, into': seq<SlotSet>, from: seq<nat>, x: nat)
    requires |into| == |into'| && InSome(into, from, x)
    requires forall b :: 0 <= b < |into| ==> into[b] <= into'[b]
    ensures InSome(into', from, x)
  {}

  ghost predicate Fits(p: RuntimeProgram, g: BlockGraph, live: Live)
    requires g.Valid(p)
  {
    Sized(g, live) && AllGrowing(p, g, live) && AllLive(p, g, live)
  }

  /** One visit to a block keeps everything that holds between visits. */
  lemma VisitKeeps(p: RuntimeProgram, g: BlockGraph, live: Live, b: nat, out: SlotSet)
    requires InRange(p) && g.Valid(p) && Fits(p, g, live) && b < |g.starts| && g.starts[b] <= g.End(b) <= |p.instrs|
    requires forall x :: x in out <==> InSome(live.into, g.successors[b], x)
    ensures live.out[b] <= out && live.into[b] <= LiveFrom(p, out, g.starts[b], g.End(b))
    ensures Fits(p, g, Live(live.into[b := LiveFrom(p, out, g.starts[b], g.End(b))], live.out[b := out]))
  {
    var into := LiveFrom(p, out, g.starts[b], g.End(b));
    var live' := Live(live.into[b := into], live.out[b := out]);
    assert Growing(p, g, live, b);
    LiveMonotone(p, live.out[b], out, g.starts[b], g.End(b));
    OutWithin(p, g, live, b, out);
    LiveWithin(p, out, g.starts[b], g.End(b));
    forall c | 0 <= c < |g.starts|
      ensures Growing(p, g, live', c)
    {
      assert Growing(p, g, live, c);
      forall x | x in live'.out[c]
        ensures InSome(live'.into, g.successors[c], x)
      {
        LargerInto(live.into, live'.into, g.successors[c], x);
      }
    }
    VisitLive(p, g, live, b, out);
  }

  lemma OutWithin(p: RuntimeProgram, g: BlockGraph, live: Live, b: nat, out: SlotSet)
    requires g.Valid(p) && Sized(g, live) && AllGrowing(p, g, live) && b < |g.starts|
    requires forall x :: x in out <==> InSome(live.into, g.successors[b], x)
    ensures out <= Nodes(p.slots)
  {
    forall x | x in out
      ensures x in Nodes(p.slots)
    {
      var k :| 0 <= k < |g.successors[b]| && g.successors[b][k] < |live.into| && x in live.into[g.successors[b][k]];
      assert Growing(p, g, live, g.successors[b][k]);
    }
  }

  lemma VisitLive(p: RuntimeProgram, g: BlockGraph, live: Live, b: nat, out: SlotSet)
    requires g.Valid(p) && Sized(g, live) && AllLive(p, g, live) && b < |g.starts|
      && g.starts[b] <= g.End(b) <= |p.instrs|
    requires forall x :: x in out <==> InSome(live.into, g.successors[b], x)
    ensures AllLive(p, g, Live(live.into[b := LiveFrom(p, out, g.starts[b], g.End(b))], live.out[b := out]))
  {
    hide LiveOnEntry;
    forall x | x in out
      ensures LiveOnExit(p, g, b, x)
    {
      var k: nat :| k < |g.successors[b]| && g.successors[b][k] < |live.into| && x in live.into[g.successors[b][k]];
      var c := g.successors[b][k];
      assert c in g.successors[b];
      assert LiveOnEntry(p, g, c, x);
    }
    hide LiveOnExit;
    forall x | x in LiveFrom(p, out, g.starts[b], g.End(b))
      ensures LiveOnEntry(p, g, b, x)
    {
      EntryLive(p, g, b, x, out);
    }
  }

  lemma EntryLive(p: RuntimeProgram, g: BlockGraph, b: nat, x: nat, out: SlotSet)
    requires g.Valid(p) && b < |g.starts| && g.starts[b] <= g.End(b) <= |p.instrs|
    requires x in LiveFrom(p, out, g.starts[b], g.End(b)) && (x in out ==> LiveOnExit(p, g, b, x))
    ensures LiveOnEntry(p, g, b, x)
  {
    if |p.instrs| > 0 {
      BlockNonempty(g, p, b);
      InLiveFrom(p, g, b, g.starts[b], x, out);
    }
  }

  ghost predicate Summaries(p: RuntimeProgram, g: BlockGraph, uses: seq<SlotSet>, defs: seq<SlotSet>, n: nat)
    requires n <= |g.starts|
  {
    |uses| == |defs| == n &&
    forall b :: 0 <= b < n ==>
      g.starts[b] <= g.End(b) <= |p.instrs| && Summary(p, g.starts[b], g.End(b), uses[b], defs[b])
  }

  method SummariseBlocks(p: RuntimeProgram, g: BlockGraph) returns (uses: seq<SlotSet>, defs: seq<SlotSet>)
    requires g.Valid(p)
    ensures Summaries(p, g, uses, defs, |g.starts|)
  {
    uses, defs := [], [];
    for b := 0 to |g.starts|
      invariant Summaries(p, g, uses, defs, b)
    {
      BlockWithin(p, g, b);
      var use, def := Summarise(p, g.starts[b], g.End(b));
      hide Summary;
      uses, defs := uses + [use], defs + [def];
    }
  }

  /** The sets of the fixpoint are exactly the live slots. */
  ghost predicate Exact(p: RuntimeProgram, g: BlockGraph, live: Live)
    requires Sized(g, live)
  {
    && (forall b: nat, x: nat :: b < |g.starts| ==> (x in live.into[b] <==> LiveOnEntry(p, g, b, x)))
    && (forall b: nat, x: nat :: b < |g.starts| ==> (x in live.out[b] <==> LiveOnExit(p, g, b, x)))
  }

  method ComputeLiveness(p: RuntimeProgram, g: BlockGraph) returns (live: Live)
    requires InRange(p) && g.Valid(p)
    ensures Sized(g, live) && IsFixpoint(p, g, live) && Exact(p, g, live)
  {
    var uses, defs := SummariseBlocks(p, g);
    var none := seq(|g.starts|, _ => {});
    live := Live(none, none);
    StartFits(p, g, live);
    var changed := true;
    ghost var bound := 2 * (|g.starts| * p.slots);
    while changed
      invariant Fits(p, g, live)
      invariant !changed ==> IsFixpoint(p, g, live)
      decreases bound - Size(live), changed
    {
      hide Fits;
      WeightWithin(p, g, live);
      live, changed := VisitAll(p, g, live, uses, defs);
      WeightWithin(p, g, live);
    }
    FixpointExact(p, g, live);
  }

  lemma StartFits(p: RuntimeProgram, g: BlockGraph, live: Live)
    requires g.Valid(p) && Sized(g, live)
    requires forall b :: 0 <= b < |g.starts| ==> live.into[b] == {} && live.out[b] == {}
    ensures Fits(p, g, live)
  {
    forall b | 0 <= b < |g.starts|
      ensures Growing(p, g, live, b)
    {
      BlockWithin(p, g, b);
    }
  }

  lemma WeightWithin(p: RuntimeProgram, g: BlockGraph, live: Live)
    requires g.Valid(p) && Fits(p, g, live)
    ensures Size(live) <= 2 * (|g.starts| * p.slots)
  {
    forall b | 0 <= b < |g.starts|
      ensures live.into[b] <= Nodes(p.slots) && live.out[b] <= Nodes(p.slots)
    {
      assert Growing(p, g, live, b);
    }
    WeightBound(live.into, p.slots);
    WeightBound(live.out, p.slots);
  }

  ghost function Size(live: Live): nat {
    Weight(live.into) + Weight(live.out)
  }

  method VisitOne(p: RuntimeProgram, g: BlockGraph, before: Live, use: SlotSet, def: SlotSet, b: nat)
      returns (live: Live, changed: bool)
    requires InRange(p) && g.Valid(p) && Fits(p, g, before) && b < |g.starts|
    requires g.starts[b] <= g.End(b) <= |p.instrs| && Summary(p, g.starts[b], g.End(b), use, def)
    ensures Fits(p, g, live)
    ensures !changed ==> live == before && Settled(p, g, live, b)
    ensures changed ==> Size(live) > Size(before)
  {
    live, changed := before, false;
    var out := LiveOut(g, live.into, b);
    var incoming := use + (out - def);
    assert incoming == LiveFrom(p, out, g.starts[b], g.End(b));
    VisitKeeps(p, g, live, b, out);
    if out != live.out[b] || incoming != live.into[b] {
      WeightGrows(live.into, b, incoming);
      WeightGrows(live.out, b, out);
      live := Live(live.into[b := incoming], live.out[b := out]);
      changed := true;
    }
  }

  ghost predicate SettledFrom(p: RuntimeProgram, g: BlockGraph, live: Live, b: nat)
    requires g.Cuts(p) && Sized(g, live)
  {
    forall c :: b <= c < |g.starts| ==> Settled(p, g, live, c)
  }

  /** One round over the blocks, last to first. */
  method VisitAll(p: RuntimeProgram, g: BlockGraph, before: Live, uses: seq<SlotSet>, defs: seq<SlotSet>)
      returns (live: Live, changed: bool)
    requires InRange(p) && g.Valid(p) && Summaries(p, g, uses, defs, |g.starts|) && Fits(p, g, before)
    ensures Fits(p, g, live)
    ensures !changed ==> live == before && IsFixpoint(p, g, live)
    ensures changed ==> Size(live) > Size(before)
  {
    hide Summary;
    hide Settled;
    hide AllGrowing;
    hide AllLive;
    hide Size;
    hide InRange;
    hide BlockGraph.Cuts;
    hide Edge;
    live, changed := before, false;
    for b := |g.starts| downto 0
      invariant Fits(p, g, live)
      invariant if changed then Size(live) > Size(before) else live == before
      invariant !changed ==> SettledFrom(p, g, live, b)
    {
      var visited;
      live, visited := VisitOne(p, g, live, uses[b], defs[b], b);
      changed := changed || visited;
    }
  }

  lemma FixpointExact(p: RuntimeProgram, g: BlockGraph, live: Live)
    requires g.Valid(p) && Sized(g, live) && IsFixpoint(p, g, live) && AllLive(p, g, live)
    ensures Exact(p, g, live)
  {
    forall b: nat, x: nat | b < |g.starts| && LiveOnEntry(p, g, b, x)
      ensures x in live.into[b]
    {
      var n: nat :| ReadAhead(p, g.starts[b], x, n);
      BlockNonempty(g, p, b);
      ReadAheadInLive(p, g, live, g.starts[b], x, n);
      assert Settled(p, g, live, b);
    }
    hide LiveOnEntry;
    forall b: nat, x: nat | b < |g.starts| && LiveOnExit(p, g, b, x)
      ensures x in live.out[b]
    {
      var c: nat :| c < |g.starts| && Edge(p, g.starts, b, c) && LiveOnEntry(p, g, c, x);
      assert c in g.successors[b];
      var k: nat :| k < |g.successors[b]| && g.successors[b][k] == c;
      assert Settled(p, g, live, b) && x in live.into[g.successors[b][k]];
    }
  }
}
