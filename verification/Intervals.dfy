/** Live segments and intervals: `compute_live_intervals` after the liveness fixpoint, and the two-pointer
    interference test. */
module Intervals {
  import opened Words
  import opened Ir
  import opened Blocks
  import opened Permutations
  import opened Liveness

  /** Both ends belong to the segment. */
  datatype LiveSegment = LiveSegment(start: nat, end: nat)

  datatype LiveInterval = LiveInterval(slot: nat, start: nat, end: nat, segments: seq<LiveSegment>, force_stack: bool,
      copy_hint: Option<nat>)

  predicate InSegment(s: LiveSegment, i: nat) {
    s.start <= i <= s.end
  }

  ghost predicate InSegments(segments: seq<LiveSegment>, i: nat) {
    exists k :: 0 <= k < |segments| && InSegment(segments[k], i)
  }

  /** In order, without overlap. */
  ghost predicate InSequence(segments: seq<LiveSegment>) {
    && (forall k :: 0 <= k < |segments| ==> segments[k].start <= segments[k].end)
    && (forall j, k :: 0 <= j < k < |segments| ==> segments[j].end < segments[k].start)
  }

  // ----- interference -----

  /** `LiveInterval::interferes`: there is a position that both intervals cover. */
  method Interferes(a: seq<LiveSegment>, b: seq<LiveSegment>) returns (r: bool)
    requires InSequence(a) && InSequence(b)
    ensures r <==> Overlap(a, b)
  {
    var left, right := 0, 0;
    while left < |a| && right < |b|
      invariant left <= |a| && right <= |b|
      invariant forall i, j, k :: 0 <= j < left && 0 <= k < |b| ==> !(InSegment(a[j], i) && InSegment(b[k], i))
      invariant forall i, j, k :: 0 <= j < |a| && 0 <= k < right ==> !(InSegment(a[j], i) && InSegment(b[k], i))
      decreases |a| - left + |b| - right
    {
      if a[left].end < b[right].start {
        left := left + 1;
      } else if b[right].end < a[left].start {
        right := right + 1;
      } else {
        var i: nat := if a[left].start >= b[right].start then a[left].start else b[right].start;
        assert InSegment(a[left], i) && InSegment(b[right], i);
        assert InSegments(a, i) && InSegments(b, i);
        return true;
      }
    }
    return false;
  }

  ghost predicate Overlap(a: seq<LiveSegment>, b: seq<LiveSegment>) {
    exists i: nat :: InSegments(a, i) && InSegments(b, i)
  }

  // ----- what a slot's segments cover -----

  ghost predicate Touches(p: RuntimeProgram, x: nat, i: nat) {
    i < |p.instrs| && (x in Reads(p, i) || x in Writes(p, i))
  }

  ghost predicate TouchedWithin(p: RuntimeProgram, x: nat, from: nat, to: nat) {
    exists k: nat :: from <= k <= to && Touches(p, x, k)
  }

  /** Position `i` of a block with instructions `start` to `end - 1` is covered for slot `x`: from the block's
      start if the slot is live on entry or on exit, otherwise from its first use; up to the block's end if
      the slot is live on exit, otherwise up to its last use. */
  ghost predicate CoveredIn(p: RuntimeProgram, start: nat, end: nat, into: bool, out: bool, x: nat, i: nat) {
    && start <= i < end
    && (into || out || TouchedWithin(p, x, start, i))
    && (out || (into && i == start) || TouchedWithin(p, x, i, end - 1))
  }

  ghost predicate Covered(p: RuntimeProgram, g: BlockGraph, live: Live, x: nat, i: nat)
    requires g.Cuts(p) && Sized(g, live)
  {
    i < |p.instrs| &&
    var b := g.block_of[i];
    CoveredIn(p, g.starts[b], g.End(b), x in live.into[b], x in live.out[b], x, i)
  }

  /** `block_first` and `block_last` of one slot. */
  datatype Span = Span(first: Option<nat>, last: nat)

  function Widen(s: Span, i: nat): Span {
    Span(if s.first.None? || i < s.first.value then Some(i) else s.first, if i > s.last then i else s.last)
  }

  /** The span of the instructions from `start` up to, but not including, `i`. */
  ghost predicate SpanSoFar(p: RuntimeProgram, start: nat, i: nat, into: bool, x: nat, s: Span) {
    && (s.first.None? ==> s.last == 0 && !into && forall k: nat :: start <= k < i ==> !Touches(p, x, k))
    && (s.first.Some? ==>
      && start <= s.first.value <= s.last
      && ((into && s.first.value == start) || (!into && s.first.value < i && Touches(p, x, s.first.value)))
      && ((into && s.last == start) || (s.last < i && Touches(p, x, s.last)))
      && (forall k: nat :: start <= k < i && Touches(p, x, k) ==> s.first.value <= k <= s.last))
  }

  lemma WidenSpan(p: RuntimeProgram, start: nat, i: nat, into: bool, x: nat, s: Span)
    requires start <= i && SpanSoFar(p, start, i, into, x, s)
    ensures SpanSoFar(p, start, i + 1, into, x, if Touches(p, x, i) then Widen(s, i) else s)
  {
    hide Touches;
  }

  /** The segment of a slot in one block, if it has one. */
  function SegmentOf(s: Span, start: nat, end: nat, out: bool): Option<LiveSegment>
    requires start < end
  {
    if out then Some(LiveSegment(start, end - 1))
    else if s.first.None? then None
    else Some(LiveSegment(s.first.value, if s.last > s.first.value then s.last else s.first.value))
  }

  lemma SegmentCovers(p: RuntimeProgram, start: nat, end: nat, into: bool, out: bool, x: nat, s: Span)
    requires start < end && SpanSoFar(p, start, end, into, x, s)
    ensures
      var segment := SegmentOf(s, start, end, out);
      && (segment.Some? ==> start <= segment.value.start <= segment.value.end < end)
      && (forall i: nat :: (segment.Some? && InSegment(segment.value, i)) <==>
        CoveredIn(p, start, end, into, out, x, i))
  {
    hide Touches;
    var segment := SegmentOf(s, start, end, out);
    forall i: nat
      ensures (segment.Some? && InSegment(segment.value, i)) <==> CoveredIn(p, start, end, into, out, x, i)
    {
      if segment.Some? && InSegment(segment.value, i) && !out {
        assert !into ==> Touches(p, x, s.first.value);
        assert !into ==> TouchedWithin(p, x, start, i);
        assert Touches(p, x, s.last) || (into && i == start);
      }
    }
  }

  // ----- building the segments -----

  ghost predicate SpansSoFar(p: RuntimeProgram, start: nat, i: nat, into: SlotSet, spans: seq<Span>) {
    |spans| == p.slots && forall x :: 0 <= x < p.slots ==> SpanSoFar(p, start, i, x in into, x, spans[x])
  }

  /** `block_first` and `block_last` for all slots of one block. */
  method BlockSpans(p: RuntimeProgram, start: nat, end: nat, into: SlotSet) returns (spans: seq<Span>)
    requires InRange(p) && start < end <= |p.instrs|
    ensures SpansSoFar(p, start, end, into, spans)
  {
    spans := seq(p.slots, x => if x in into then Span(Some(start), start) else Span(None, 0));
    for i := start to end
      invariant SpansSoFar(p, start, i, into, spans)
    {
      spans := WidenAll(p, start, i, into, spans);
    }
  }

  method WidenAll(p: RuntimeProgram, start: nat, i: nat, into: SlotSet, before: seq<Span>) returns (spans: seq<Span>)
    requires InRange(p) && start <= i < |p.instrs| && SpansSoFar(p, start, i, into, before)
    ensures SpansSoFar(p, start, i + 1, into, spans)
  {
    assert InstrInRange(p, p.instrs[i]);
    var touched := ReadSlots(p.instrs[i]) + WriteSlots(p.instrs[i]);
    assert forall x: nat :: x in touched <==> Touches(p, x, i);
    assert forall k :: 0 <= k < |touched| ==> touched[k] in touched;
    hide InRange;
    hide Touches;
    hide ReadSlots;
    hide WriteSlots;
    hide SpanSoFar;
    spans := WidenEach(before, touched, i);
    AllWidened(p, start, i, into, before, spans);
  }

  method WidenEach(before: seq<Span>, touched: seq<nat>, i: nat) returns (spans: seq<Span>)
    requires Within(touched, |before|)
    ensures |spans| == |before|
    ensures forall x :: 0 <= x < |before| ==> spans[x] == if x in touched then Widen(before[x], i) else before[x]
  {
    hide Widen;
    spans := before;
    for k := 0 to |touched|
      invariant |spans| == |before|
      invariant forall x :: 0 <= x < |before| ==>
        spans[x] == if x in touched[..k] then Widen(before[x], i) else before[x]
    {
      var x := touched[k];
      WidenTwice(before[x], i);
      assert touched[..k + 1] == touched[..k] + [x];
      spans := spans[x := Widen(spans[x], i)];
    }
    assert touched[..|touched|] == touched;
  }

  lemma WidenTwice(s: Span, i: nat)
    ensures Widen(Widen(s, i), i) == Widen(s, i)
  {}

  lemma AllWidened(p: RuntimeProgram, start: nat, i: nat, into: SlotSet, before: seq<Span>, spans: seq<Span>)
    requires start <= i && SpansSoFar(p, start, i, into, before) && |spans| == p.slots
    requires forall x :: 0 <= x < p.slots ==> spans[x] == if Touches(p, x, i) then Widen(before[x], i) else before[x]
    ensures SpansSoFar(p, start, i + 1, into, spans)
  {
    forall x | 0 <= x < p.slots
      ensures SpanSoFar(p, start, i + 1, x in into, x, spans[x])
    {
      WidenSpan(p, start, i, x in into, x, before[x]);
    }
  }

  /** The segments of slot `x` in the first `n` blocks. */
  ghost predicate SegmentsSoFar(p: RuntimeProgram, g: BlockGraph, live: Live, n: nat, x: nat,
      segments: seq<LiveSegment>)
    requires g.Cuts(p) && Sized(g, live) && n <= |g.starts|
  {
    && InSequence(segments)
    && (forall k :: 0 <= k < |segments| ==> segments[k].end < (if n < |g.starts| then g.starts[n] else |p.instrs|))
    && (forall i: nat :: InSegments(segments, i) <==> i < |p.instrs| && g.block_of[i] < n && Covered(p, g, live, x, i))
  }

  ghost predicate RangesSoFar(p: RuntimeProgram, g: BlockGraph, live: Live, n: nat, ranges: seq<seq<LiveSegment>>)
    requires g.Cuts(p) && Sized(g, live) && n <= |g.starts|
  {
    |ranges| == p.slots && forall x :: 0 <= x < p.slots ==> SegmentsSoFar(p, g, live, n, x, ranges[x])
  }

  lemma AddSegment(p: RuntimeProgram, g: BlockGraph, live: Live, b: nat, x: nat, segments: seq<LiveSegment>, s: Span)
    requires g.Cuts(p) && Sized(g, live) && b < |g.starts| && |p.instrs| > 0
      && SegmentsSoFar(p, g, live, b, x, segments)
    requires g.starts[b] < g.End(b) && SpanSoFar(p, g.starts[b], g.End(b), x in live.into[b], x, s)
    ensures
      var segment := SegmentOf(s, g.starts[b], g.End(b), x in live.out[b]);
      SegmentsSoFar(p, g, live, b + 1, x, if segment.Some? then segments + [segment.value] else segments)
  {
    var start, end, into, out := g.starts[b], g.End(b), x in live.into[b], x in live.out[b];
    SegmentCovers(p, start, end, into, out, x, s);
    var segment := SegmentOf(s, start, end, out);
    var segments' := if segment.Some? then segments + [segment.value] else segments;
    BlockNonempty(g, p, b);
    hide Covered;
    hide CoveredIn;
    hide SpanSoFar;
    hide SegmentOf;
    hide BlockGraph.Cuts;
    AppendedInSequence(segments, segment, start);
    hide InSequence;
    hide InSegments;
    forall i: nat
      ensures InSegments(segments', i) <==> i < |p.instrs| && g.block_of[i] < b + 1 && Covered(p, g, live, x, i)
    {
      AppendedCovers(segments, segment, i);
      CoveredInBlock(p, g, live, b, x, i);
    }
  }

  lemma AppendedInSequence(segments: seq<LiveSegment>, segment: Option<LiveSegment>, start: nat)
    requires InSequence(segments) && forall k :: 0 <= k < |segments| ==> segments[k].end < start
    requires segment.Some? ==> start <= segment.value.start <= segment.value.end
    ensures InSequence(if segment.Some? then segments + [segment.value] else segments)
  {}

  lemma AppendedCovers(segments: seq<LiveSegment>, segment: Option<LiveSegment>, i: nat)
    ensures InSegments(if segment.Some? then segments + [segment.value] else segments, i) <==>
      InSegments(segments, i) || (segment.Some? && InSegment(segment.value, i))
  {
    if segment.Some? {
      var all := segments + [segment.value];
      if InSegments(segments, i) {
        var k :| 0 <= k < |segments| && InSegment(segments[k], i);
        assert InSegment(all[k], i);
      }
      if InSegment(segment.value, i) {
        assert InSegment(all[|segments|], i);
      }
    }
  }

  lemma CoveredInBlock(p: RuntimeProgram, g: BlockGraph, live: Live, b: nat, x: nat, i: nat)
    requires g.Cuts(p) && Sized(g, live) && b < |g.starts| && |p.instrs| > 0
    ensures CoveredIn(p, g.starts[b], g.End(b), x in live.into[b], x in live.out[b], x, i) <==>
      i < |p.instrs| && g.block_of[i] == b && Covered(p, g, live, x, i)
  {
    hide TouchedWithin;
    BlockNonempty(g, p, b);
    if g.starts[b] <= i < g.End(b) {
      BlockUnique(g, p, b, i);
    } else if i < |p.instrs| {
      assert InBlock(g.starts, |g.block_of|, g.block_of[i], i);
    }
  }

  method CollectSegments(p: RuntimeProgram, g: BlockGraph, live: Live) returns (ranges: seq<seq<LiveSegment>>)
    requires InRange(p) && g.Valid(p) && Sized(g, live)
    ensures RangesSoFar(p, g, live, |g.starts|, ranges)
  {
    ranges := seq(p.slots, _ => []);
    for b := 0 to |g.starts|
      invariant RangesSoFar(p, g, live, b, ranges)
    {
      BlockWithin(p, g, b);
      if g.starts[b] < g.End(b) {
        ranges := AppendSegments(p, g, live, b, ranges);
      } else {
        EmptyProgram(p, g, live, b, ranges);
      }
    }
  }

  /** Only a program without instructions has a block without instructions. */
  lemma EmptyProgram(p: RuntimeProgram, g: BlockGraph, live: Live, b: nat, ranges: seq<seq<LiveSegment>>)
    requires g.Valid(p) && Sized(g, live) && b < |g.starts| && g.starts[b] == g.End(b)
      && RangesSoFar(p, g, live, b, ranges)
    ensures RangesSoFar(p, g, live, b + 1, ranges)
  {
    if |p.instrs| > 0 {
      BlockNonempty(g, p, b);
    } else {
      forall x | 0 <= x < p.slots
        ensures SegmentsSoFar(p, g, live, b + 1, x, ranges[x])
      {
        assert SegmentsSoFar(p, g, live, b, x, ranges[x]);
        NoneBelowZero(ranges[x]);
      }
    }
  }

  lemma NoneBelowZero(segments: seq<LiveSegment>)
    ensures (forall k :: 0 <= k < |segments| ==> segments[k].end < 0) ==> segments == []
  {
    if segments != [] {
      assert segments[0].end >= 0;
    }
  }

  method AppendSegments(p: RuntimeProgram, g: BlockGraph, live: Live, b: nat, before: seq<seq<LiveSegment>>)
      returns (ranges: seq<seq<LiveSegment>>)
    requires InRange(p) && g.Valid(p) && Sized(g, live) && b < |g.starts| && g.starts[b] < g.End(b) <= |p.instrs|
    requires RangesSoFar(p, g, live, b, before)
    ensures RangesSoFar(p, g, live, b + 1, ranges)
  {
    var spans := BlockSpans(p, g.starts[b], g.End(b), live.into[b]);
    hide SegmentsSoFar;
    hide SpanSoFar;
    hide SegmentOf;
    hide InRange;
    assert g.Cuts(p);
    hide BlockGraph.Valid;
    hide BlockGraph.Cuts;
    ranges := before;
    for x := 0 to p.slots
      invariant |ranges| == p.slots
      invariant forall y :: 0 <= y < x ==> SegmentsSoFar(p, g, live, b + 1, y, ranges[y])
      invariant forall y :: x <= y < p.slots ==> ranges[y] == before[y]
    {
      var segments := AppendOne(p, g, live, b, x, before[x], spans[x]);
      ranges := ranges[x := segments];
    }
  }

  method AppendOne(p: RuntimeProgram, g: BlockGraph, live: Live, b: nat, x: nat, before: seq<LiveSegment>, s: Span)
      returns (segments: seq<LiveSegment>)
    requires g.Cuts(p) && Sized(g, live) && b < |g.starts| && |p.instrs| > 0 && SegmentsSoFar(p, g, live, b, x, before)
    requires g.starts[b] < g.End(b) && SpanSoFar(p, g.starts[b], g.End(b), x in live.into[b], x, s)
    ensures SegmentsSoFar(p, g, live, b + 1, x, segments)
  {
    AddSegment(p, g, live, b, x, before, s);
    var segment := SegmentOf(s, g.starts[b], g.End(b), x in live.out[b]);
    hide SegmentsSoFar;
    hide SegmentOf;
    segments := if segment.Some? then before + [segment.value] else before;
  }

  /** Neighbouring segments leave a position between them. */
  ghost predicate Separated(segments: seq<LiveSegment>) {
    forall k :: 0 <= k < |segments| - 1 ==> segments[k].end + 1 < segments[k + 1].start
  }

  /** Join segments that overlap or touch; the positions covered stay the same. */
  method MergeSegments(segments: seq<LiveSegment>) returns (merged: seq<LiveSegment>)
    requires InSequence(segments)
    ensures InSequence(merged) && Separated(merged) && (segments != [] ==> merged != [])
    ensures forall i: nat :: InSegments(merged, i) <==> InSegments(segments, i)
  {
    merged := [];
    for k := 0 to |segments|
      invariant InSequence(merged) && Separated(merged)
      invariant if k == 0 then merged == [] else merged != [] && merged[|merged| - 1].end == segments[k - 1].end
      invariant forall i: nat :: InSegments(merged, i) <==> InSegments(segments[..k], i)
    {
      assert k > 0 ==> segments[k - 1].end < segments[k].start;
      assert segments[..k + 1] == segments[..k] + [segments[k]];
      hide InSequence;
      hide Separated;
      hide InSegments;
      merged := MergeNext(merged, segments[k]);
      forall i: nat
        ensures InSegments(segments[..k + 1], i) <==> InSegments(segments[..k], i) || InSegment(segments[k], i)
      {
        AppendedCovers(segments[..k], Some(segments[k]), i);
      }
    }
    assert segments[..|segments|] == segments;
  }

  method MergeNext(before: seq<LiveSegment>, segment: LiveSegment) returns (merged: seq<LiveSegment>)
    requires InSequence(before) && Separated(before) && segment.start <= segment.end
    requires before != [] ==> before[|before| - 1].end < segment.start
    ensures InSequence(merged) && Separated(merged) && merged != [] && merged[|merged| - 1].end == segment.end
    ensures forall i: nat :: InSegments(merged, i) <==> InSegments(before, i) || InSegment(segment, i)
  {
    if before != [] && segment.start <= before[|before| - 1].end + 1 {
      var last := before[|before| - 1];
      merged := before[..|before| - 1]
        + [LiveSegment(last.start, if segment.end > last.end then segment.end else last.end)];
      MergedCovers(before, segment, merged);
    } else {
      merged := before + [segment];
      assert before != [] ==> before[|before| - 1].end + 1 < segment.start;
      AppendedLast(before, segment);
      hide InSegments;
      forall i: nat
        ensures InSegments(merged, i) <==> InSegments(before, i) || InSegment(segment, i)
      {
        AppendedCovers(before, Some(segment), i);
      }
    }
  }

  lemma AppendedLast(before: seq<LiveSegment>, segment: LiveSegment)
    requires InSequence(before) && Separated(before) && segment.start <= segment.end
    requires before != [] ==> before[|before| - 1].end + 1 < segment.start
    ensures InSequence(before + [segment]) && Separated(before + [segment])
  {
    forall k | 0 <= k < |before|
      ensures before[k].end <= before[|before| - 1].end
    {
      if k < |before| - 1 {
        assert before[k].end < before[|before| - 1].start;
      }
    }
  }

  lemma MergedCovers(before: seq<LiveSegment>, segment: LiveSegment, merged: seq<LiveSegment>)
    requires InSequence(before) && Separated(before) && before != [] && segment.start <= segment.end
    requires before[|before| - 1].end < segment.start <= before[|before| - 1].end + 1
    requires merged == before[..|before| - 1] + [LiveSegment(before[|before| - 1].start, segment.end)]
    ensures InSequence(merged) && Separated(merged)
    ensures forall i: nat :: InSegments(merged, i) <==> InSegments(before, i) || InSegment(segment, i)
  {
    var front, last := before[..|before| - 1], before[|before| - 1];
    assert before == front + [last];
    forall i: nat
      ensures InSegments(merged, i) <==> InSegments(before, i) || InSegment(segment, i)
    {
      AppendedCovers(front, Some(last), i);
      AppendedCovers(front, Some(LiveSegment(last.start, segment.end)), i);
    }
  }

  // ----- intervals -----

  ghost predicate IntervalRight(p: RuntimeProgram, g: BlockGraph, live: Live, interval: LiveInterval)
    requires g.Cuts(p) && Sized(g, live)
  {
    && interval.segments != [] && InSequence(interval.segments)
    && interval.start == interval.segments[0].start
    && interval.end == interval.segments[|interval.segments| - 1].end
    && (forall i: nat :: InSegments(interval.segments, i) <==> Covered(p, g, live, interval.slot, i))
  }

  /** One interval for every slot that is ever covered. */
  ghost predicate IntervalsRight(p: RuntimeProgram, g: BlockGraph, live: Live, intervals: seq<LiveInterval>)
    requires g.Cuts(p) && Sized(g, live)
  {
    IntervalsBelow(p, g, live, p.slots, intervals)
  }

  ghost predicate HasInterval(intervals: seq<LiveInterval>, x: nat) {
    exists k :: 0 <= k < |intervals| && intervals[k].slot == x
  }

  lemma NeverCovered(p: RuntimeProgram, g: BlockGraph, live: Live, x: nat, segments: seq<LiveSegment>)
    requires g.Cuts(p) && Sized(g, live) && SegmentsSoFar(p, g, live, |g.starts|, x, segments)
    ensures segments == [] ==> forall i: nat :: !Covered(p, g, live, x, i)
    ensures forall i: nat :: InSegments(segments, i) <==> Covered(p, g, live, x, i)
  {
    hide CoveredIn;
    forall i: nat | i < |p.instrs|
      ensures g.block_of[i] < |g.starts|
    {
      assert InBlock(g.starts, |g.block_of|, g.block_of[i], i);
    }
    assert segments == [] ==> forall i: nat :: !InSegments(segments, i);
  }

  ghost predicate IntervalsBelow(p: RuntimeProgram, g: BlockGraph, live: Live, n: nat, intervals: seq<LiveInterval>)
    requires g.Cuts(p) && Sized(g, live)
  {
    && (forall k :: 0 <= k < |intervals| ==> intervals[k].slot < n && IntervalRight(p, g, live, intervals[k]))
    && (forall j, k :: 0 <= j < k < |intervals| ==> intervals[j].slot != intervals[k].slot)
    && (forall x: nat, i: nat :: x < n && Covered(p, g, live, x, i) ==> HasInterval(intervals, x))
  }

  /** `compute_live_intervals`; which slots must stay on the stack and which copies are worth coalescing
      are arbitrary inputs here, and the final sort is left to the order of allocation. */
  method ComputeLiveIntervals(p: RuntimeProgram, g: BlockGraph, force_stack: seq<bool>, copy_hints: seq<Option<nat>>)
      returns (live: Live, intervals: seq<LiveInterval>)
    requires InRange(p) && g.Valid(p) && |force_stack| == |copy_hints| == p.slots
    ensures Sized(g, live) && Liveness.IsFixpoint(p, g, live) && Exact(p, g, live)
    ensures IntervalsRight(p, g, live, intervals)
  {
    live := ComputeLiveness(p, g);
    var ranges := CollectSegments(p, g, live);
    hide Liveness.IsFixpoint;
    hide Exact;
    hide InRange;
    intervals := [];
    for x := 0 to p.slots
      invariant IntervalsBelow(p, g, live, x, intervals)
    {
      hide IntervalsBelow;
      intervals := AppendInterval(p, g, live, x, ranges[x], intervals, force_stack[x], copy_hints[x]);
    }
  }

  /** The interval of one slot, if the slot is ever live or touched. */
  method AppendInterval(p: RuntimeProgram, g: BlockGraph, live: Live, x: nat, range: seq<LiveSegment>,
      before: seq<LiveInterval>, force_stack: bool, copy_hint: Option<nat>)
      returns (intervals: seq<LiveInterval>)
    requires g.Cuts(p) && Sized(g, live) && SegmentsSoFar(p, g, live, |g.starts|, x, range)
    requires IntervalsBelow(p, g, live, x, before)
    ensures IntervalsBelow(p, g, live, x + 1, intervals)
  {
    NeverCovered(p, g, live, x, range);
    hide Covered;
    intervals := before;
    if range != [] {
      var segments := MergeSegments(range);
      hide SegmentsSoFar;
      var interval := LiveInterval(x, segments[0].start, segments[|segments| - 1].end, segments, force_stack,
        copy_hint);
      AddInterval(p, g, live, x, before, interval);
      intervals := before + [interval];
    }
  }

  lemma AddInterval(p: RuntimeProgram, g: BlockGraph, live: Live, n: nat, intervals: seq<LiveInterval>,
      interval: LiveInterval)
    requires g.Cuts(p) && Sized(g, live) && IntervalsBelow(p, g, live, n, intervals)
    requires interval.slot == n && IntervalRight(p, g, live, interval)
    ensures IntervalsBelow(p, g, live, n + 1, intervals + [interval])
  {
    hide IntervalRight;
    hide Covered;
    var intervals' := intervals + [interval];
    forall x: nat, i: nat | x < n + 1 && Covered(p, g, live, x, i)
      ensures HasInterval(intervals', x)
    {
      if x == n {
        assert intervals'[|intervals|].slot == x;
      } else {
        var k :| 0 <= k < |intervals| && intervals[k].slot == x;
        assert intervals'[k].slot == x;
      }
    }
  }
}
