/** The allocated program runs in lockstep with the original: every slot that is still needed has its
    value where the slot map says. */
module RegAllocCorrectness {
  import opened Words
  import opened Ir
  import opened Semantics
  import opened Execution
  import opened Blocks
  import opened Permutations
  import opened Liveness
  import opened Intervals
  import opened RegAlloc

  // ----- the allocated program -----

  /** A number for each place. */
  function Place(l: Location): nat {
    match l
    case Register(r) => 4 * r
    case StackWord(i) => 4 * i + 1
    case PackedByte(x) => 4 * x + 2
    case Nowhere(x) => 4 * x + 3
  }

  lemma PlaceInjective(k: Location, l: Location)
    requires Place(k) == Place(l)
    ensures k == l
  {}

  function PlaceOf(m: RuntimeSlotMap, x: nat): nat {
    Place(m.LocationOf(x))
  }

  function PlaceOperand(m: RuntimeSlotMap, o: RuntimeOperand): RuntimeOperand {
    match o
    case Slot(x) => Slot(PlaceOf(m, x))
    case Imm(_) => o
  }

  function AllocateInstr(m: RuntimeSlotMap, i: RuntimeInstr): RuntimeInstr {
    MapInstr(i, (o: RuntimeOperand) => PlaceOperand(m, o), (x: nat) => PlaceOf(m, x))
  }

  /** The program with places instead of slots, over as many places as `places`. */
  function Allocate(p: RuntimeProgram, m: RuntimeSlotMap, places: nat): (q: RuntimeProgram)
    ensures |q.instrs| == |p.instrs|
  {
    RuntimeProgram(places, seq(|p.instrs|, k requires 0 <= k < |p.instrs| => AllocateInstr(m, p.instrs[k])))
  }

  // ----- live slots are covered -----

  ghost predicate LiveAt(p: RuntimeProgram, g: BlockGraph, live: Live, i: nat, x: nat)
    requires g.Cuts(p) && Sized(g, live)
  {
    i < |p.instrs| && g.End(g.block_of[i]) <= |p.instrs|
      && x in LiveFrom(p, live.out[g.block_of[i]], i, g.End(g.block_of[i]))
  }

  lemma {:induction false} LiveTouched(p: RuntimeProgram, out: SlotSet, i: nat, end: nat, x: nat)
    requires end <= |p.instrs| && x in LiveFrom(p, out, i, end)
    ensures x in out || (i < end && TouchedWithin(p, x, i, end - 1))
    decreases end - i
  {
    hide Reads;
    hide Writes;
    if i < end {
      if x in Reads(p, i) {
        assert Touches(p, x, i);
      } else {
        LiveTouched(p, out, i + 1, end, x);
      }
    }
  }

  lemma {:induction false} LiveUpward(p: RuntimeProgram, out: SlotSet, start: nat, i: nat, end: nat, x: nat)
    requires start <= i <= end <= |p.instrs| && x in LiveFrom(p, out, i, end)
    ensures x in LiveFrom(p, out, start, end) || (start < i && TouchedWithin(p, x, start, i))
    decreases i - start
  {
    hide Reads;
    hide Writes;
    if start < i {
      if x in Writes(p, i - 1) {
        assert Touches(p, x, i - 1);
      } else {
        assert x in LiveFrom(p, out, i - 1, end);
        LiveUpward(p, out, start, i - 1, end, x);
        if start < i - 1 && TouchedWithin(p, x, start, i - 1) {
          var k: nat :| start <= k <= i - 1 && Touches(p, x, k);
          assert TouchedWithin(p, x, start, i);
        }
      }
    }
  }

  lemma TouchCovered(p: RuntimeProgram, g: BlockGraph, live: Live, i: nat, x: nat)
    requires g.Cuts(p) && Sized(g, live) && Touches(p, x, i)
    ensures Covered(p, g, live, x, i)
  {
    hide Reads;
    hide Writes;
    assert InBlock(g.starts, |g.block_of|, g.block_of[i], i);
    assert TouchedWithin(p, x, g.starts[g.block_of[i]], i);
    assert TouchedWithin(p, x, i, g.End(g.block_of[i]) - 1);
  }

  lemma LiveCovered(p: RuntimeProgram, g: BlockGraph, live: Live, i: nat, x: nat)
    requires g.Cuts(p) && Sized(g, live) && Liveness.IsFixpoint(p, g, live) && LiveAt(p, g, live, i, x)
    ensures Covered(p, g, live, x, i)
  {
    var b := g.block_of[i];
    assert InBlock(g.starts, |g.block_of|, b, i);
    assert Settled(p, g, live, b);
    LiveTouched(p, live.out[b], i, g.End(b), x);
    LiveUpward(p, live.out[b], g.starts[b], i, g.End(b), x);
    hide TouchedWithin;
  }

  lemma {:induction false} ReadAheadInRange(p: RuntimeProgram, i: nat, x: nat, n: nat)
    requires InRange(p) && i < |p.instrs| && ReadAhead(p, i, x, n)
    ensures x < p.slots
    decreases n
  {
    if x in Reads(p, i) {
      assert InstrInRange(p, p.instrs[i]);
    } else {
      var j: nat :| StaticNext(p, i, j) && ReadAhead(p, j, x, n - 1);
      ReadAheadInRange(p, j, x, n - 1);
    }
  }

  lemma LiveInRange(p: RuntimeProgram, g: BlockGraph, live: Live, i: nat, x: nat)
    requires InRange(p) && g.Valid(p) && Sized(g, live) && Exact(p, g, live) && LiveAt(p, g, live, i, x)
    ensures x < p.slots
  {
    var b := g.block_of[i];
    assert InBlock(g.starts, |g.block_of|, b, i);
    assert x in live.out[b] ==> LiveOnExit(p, g, b, x);
    InLiveFrom(p, g, b, i, x, live.out[b]);
    var n: nat :| ReadAhead(p, i, x, n);
    ReadAheadInRange(p, i, x, n);
  }

  // ----- what is live together is apart -----

  ghost predicate Allocated(p: RuntimeProgram, g: BlockGraph, live: Live, intervals: seq<LiveInterval>,
      m: RuntimeSlotMap)
  {
    && InRange(p) && g.Valid(p)
    && Sized(g, live) && Liveness.IsFixpoint(p, g, live) && Exact(p, g, live)
    && IntervalsRight(p, g, live, intervals) && Coloured(p, intervals, m)
  }

  lemma FirstAndLast(p: RuntimeProgram, g: BlockGraph, live: Live, interval: LiveInterval, i: nat)
    requires g.Cuts(p) && Sized(g, live) && IntervalRight(p, g, live, interval) && Covered(p, g, live, interval.slot, i)
    ensures interval.start <= i <= interval.end && InSegments(interval.segments, i)
  {
    hide Covered;
    var s := interval.segments;
    var k :| 0 <= k < |s| && InSegment(s[k], i);
    assert k > 0 ==> s[0].end < s[k].start;
    assert k < |s| - 1 ==> s[k].end < s[|s| - 1].start;
  }

  lemma IntervalOf(p: RuntimeProgram, g: BlockGraph, live: Live, intervals: seq<LiveInterval>, x: nat, i: nat)
      returns (k: nat)
    requires g.Cuts(p) && Sized(g, live) && IntervalsRight(p, g, live, intervals) && x < p.slots
      && Covered(p, g, live, x, i)
    ensures k < |intervals| && intervals[k].slot == x && IntervalRight(p, g, live, intervals[k])
    ensures intervals[k].start <= i <= intervals[k].end && InSegments(intervals[k].segments, i)
  {
    hide Covered;
    hide IntervalRight;
    assert HasInterval(intervals, x);
    k :| 0 <= k < |intervals| && intervals[k].slot == x;
    FirstAndLast(p, g, live, intervals[k], i);
  }

  lemma OverlapAtCopy(p: RuntimeProgram, a: LiveInterval, b: LiveInterval, i: nat)
    requires MayShare(p, a, b) || MayShare(p, b, a)
    requires InSegments(a.segments, i) && InSegments(b.segments, i) && a.start <= i <= a.end && b.start <= i <= b.end
    ensures (CopiesAt(p, i, a.slot, b.slot) && i == b.end) || (CopiesAt(p, i, b.slot, a.slot) && i == a.end)
  {
    assert Overlap(a.segments, b.segments) && Overlap(b.segments, a.segments);
    hide InSegments;
    hide CopiesAt;
  }

  /** Two slots that cover one position and share a place meet at the copy from one to the other. */
  lemma SharedMeansCopy(p: RuntimeProgram, g: BlockGraph, live: Live, intervals: seq<LiveInterval>, m: RuntimeSlotMap,
      x: nat, y: nat, i: nat)
    requires Allocated(p, g, live, intervals, m) && x < p.slots && y < p.slots && x != y
    requires Covered(p, g, live, x, i) && Covered(p, g, live, y, i) && PlaceOf(m, x) == PlaceOf(m, y)
    ensures (CopiesAt(p, i, x, y) && !Covered(p, g, live, y, i + 1))
      || (CopiesAt(p, i, y, x) && !Covered(p, g, live, x, i + 1))
  {
    hide Covered;
    hide Coloured;
    PlaceInjective(m.LocationOf(x), m.LocationOf(y));
    var j := IntervalOf(p, g, live, intervals, x, i);
    var k := IntervalOf(p, g, live, intervals, y, i);
    ColouredPair(p, intervals, m, j, k);
    OverlapAtCopy(p, intervals[j], intervals[k], i);
    hide MayShare;
    hide CopiesAt;
    hide InSegments;
    if Covered(p, g, live, x, i + 1) {
      FirstAndLast(p, g, live, intervals[j], i + 1);
    }
    if Covered(p, g, live, y, i + 1) {
      FirstAndLast(p, g, live, intervals[k], i + 1);
    }
  }

  lemma ColouredPair(p: RuntimeProgram, intervals: seq<LiveInterval>, m: RuntimeSlotMap, j: nat, k: nat)
    requires Coloured(p, intervals, m) && j < |intervals| && k < |intervals| && j != k
    requires m.LocationOf(intervals[j].slot) == m.LocationOf(intervals[k].slot)
    ensures MayShare(p, intervals[j], intervals[k]) || MayShare(p, intervals[k], intervals[j])
  {
    hide MayShare;
  }

  /** A copy instruction writes only its destination and goes on to the next instruction. */
  lemma CopyWrites(p: RuntimeProgram, i: nat, dst: nat, src: nat)
    requires CopiesAt(p, i, dst, src)
    ensures WriteSlots(p.instrs[i]) == [dst] && forall j :: StaticNext(p, i, j) ==> j == i + 1
  {}

  /** What instruction `i` writes goes nowhere near what is live across it, or what else it writes. */
  lemma WritesKeepApart(p: RuntimeProgram, g: BlockGraph, live: Live, intervals: seq<LiveInterval>, m: RuntimeSlotMap,
      i: nat, y: nat, x: nat, j: nat)
    requires Allocated(p, g, live, intervals, m) && i < |p.instrs| && y in WriteSlots(p.instrs[i]) && x != y
    requires x in WriteSlots(p.instrs[i])
      || (LiveAt(p, g, live, i, x) && StaticNext(p, i, j) && LiveAt(p, g, live, j, x))
    ensures PlaceOf(m, x) != PlaceOf(m, y)
  {
    assert InstrInRange(p, p.instrs[i]);
    assert Touches(p, y, i);
    TouchCovered(p, g, live, i, y);
    if x in WriteSlots(p.instrs[i]) {
      assert Touches(p, x, i);
      TouchCovered(p, g, live, i, x);
    } else {
      LiveCovered(p, g, live, i, x);
      LiveCovered(p, g, live, j, x);
      LiveInRange(p, g, live, i, x);
    }
    hide Covered;
    hide LiveAt;
    hide PlaceOf;
    if PlaceOf(m, x) == PlaceOf(m, y) {
      SharedMeansCopy(p, g, live, intervals, m, x, y, i);
      hide Allocated;
      if CopiesAt(p, i, x, y) {
        CopyWrites(p, i, x, y);
      } else {
        CopyWrites(p, i, y, x);
      }
    }
  }

  // ----- one step -----

  /** Every slot live before instruction `i` has its value in its place. */
  ghost predicate InPlace(p: RuntimeProgram, g: BlockGraph, live: Live, m: RuntimeSlotMap, i: nat, f: Frame, h: Frame)
    requires g.Cuts(p) && Sized(g, live)
  {
    forall x :: LiveAt(p, g, live, i, x) ==> Get(h, PlaceOf(m, x)) == Get(f, x)
  }

  lemma ReadsLive(p: RuntimeProgram, g: BlockGraph, live: Live, m: RuntimeSlotMap, i: nat, f: Frame, h: Frame)
    requires g.Cuts(p) && Sized(g, live) && i < |p.instrs| && g.End(g.block_of[i]) <= |p.instrs|
      && InPlace(p, g, live, m, i, f, h)
    ensures ReadsTrack(p.instrs[i], (o: RuntimeOperand) => PlaceOperand(m, o), (x: nat) => PlaceOf(m, x), f, h)
  {
    var fo := (o: RuntimeOperand) => PlaceOperand(m, o);
    assert InBlock(g.starts, |g.block_of|, g.block_of[i], i);
    forall x | x in ReadSlots(p.instrs[i])
      ensures Get(h, PlaceOf(m, x)) == Get(f, x)
    {
      assert x in Reads(p, i);
      assert LiveAt(p, g, live, i, x);
    }
    hide InPlace;
    hide PlaceOf;
    forall o | o in Operands(p.instrs[i])
      ensures Eval(fo(o), h) == Eval(o, f)
    {
      assert o.Slot? && o in Operands(p.instrs[i]) ==> o.slot in ReadSlots(p.instrs[i]);
    }
  }

  /** What is live after a step is live before it, unless the step writes it. */
  lemma LiveAcrossStep(p: RuntimeProgram, g: BlockGraph, live: Live, i: nat, j: nat, x: nat)
    requires g.Valid(p) && Sized(g, live) && Liveness.IsFixpoint(p, g, live) && i < |p.instrs| && StaticNext(p, i, j)
    requires LiveAt(p, g, live, j, x) && x !in WriteSlots(p.instrs[i])
    ensures LiveAt(p, g, live, i, x)
  {
    LiveBack(p, g, live, i, j, x);
    hide Liveness.IsFixpoint;
    assert InBlock(g.starts, |g.block_of|, g.block_of[i], i);
  }

  /** After the instruction's writes, what is live at the next instruction is still in place. */
  lemma StaysInPlace(p: RuntimeProgram, g: BlockGraph, live: Live, intervals: seq<LiveInterval>, m: RuntimeSlotMap,
      i: nat, j: nat, f: Frame, h: Frame, f': Frame, h': Frame)
    requires Allocated(p, g, live, intervals, m) && i < |p.instrs| && StaticNext(p, i, j)
      && InPlace(p, g, live, m, i, f, h)
    requires forall x :: x in WriteSlots(p.instrs[i]) ==> Get(h', PlaceOf(m, x)) == Get(f', x)
    requires forall x :: x !in WriteSlots(p.instrs[i]) ==> Get(f', x) == Get(f, x)
    requires forall x :: (forall y :: y in WriteSlots(p.instrs[i]) ==> PlaceOf(m, y) != x) ==> Get(h', x) == Get(h, x)
    ensures InPlace(p, g, live, m, j, f', h')
  {
    forall x | LiveAt(p, g, live, j, x)
      ensures Get(h', PlaceOf(m, x)) == Get(f', x)
    {
      if x !in WriteSlots(p.instrs[i]) {
        LiveAcrossStep(p, g, live, i, j, x);
        forall y | y in WriteSlots(p.instrs[i])
          ensures PlaceOf(m, y) != PlaceOf(m, x)
        {
          WritesKeepApart(p, g, live, intervals, m, i, y, x, j);
        }
      }
    }
  }

  lemma StepInPlace(w: World, p: RuntimeProgram, g: BlockGraph, live: Live, intervals: seq<LiveInterval>,
      m: RuntimeSlotMap, i: nat, f: Frame, h: Frame, t: Trace)
    requires Allocated(p, g, live, intervals, m) && i < |p.instrs| && !IsControl(p.instrs[i])
      && InPlace(p, g, live, m, i, f, h)
    ensures !IsControl(AllocateInstr(m, p.instrs[i]))
    ensures
      var e, d := Exec(w, p.instrs[i], f, t), Exec(w, AllocateInstr(m, p.instrs[i]), h, t);
      if e.Stop? then d == e
      else d.Next? && d.trace == e.trace && (i + 1 < |p.instrs| ==> InPlace(p, g, live, m, i + 1, e.frame, d.frame))
  {
    var instr := p.instrs[i];
    var fo, fs := (o: RuntimeOperand) => PlaceOperand(m, o), (x: nat) => PlaceOf(m, x);
    BlockNonempty(g, p, g.block_of[i]);
    ReadsLive(p, g, live, m, i, f, h);
    WritesApartHere(p, g, live, intervals, m, i);
    hide Allocated;
    hide InPlace;
    hide PlaceOf;
    ExecMapped(w, instr, fo, fs, f, h, t);
    hide Exec;
    var e, d := Exec(w, instr, f, t), Exec(w, AllocateInstr(m, instr), h, t);
    if e.Next? && i + 1 < |p.instrs| {
      ExecWrites(w, instr, f, t);
      ExecWrites(w, AllocateInstr(m, instr), h, t);
      forall x | forall y :: y in WriteSlots(instr) ==> PlaceOf(m, y) != x
        ensures Get(d.frame, x) == Get(h, x)
      {
        WritesMapped(instr, fo, fs, x);
      }
      StaysInPlace(p, g, live, intervals, m, i, i + 1, f, h, e.frame, d.frame);
    }
  }

  lemma WritesApartHere(p: RuntimeProgram, g: BlockGraph, live: Live, intervals: seq<LiveInterval>, m: RuntimeSlotMap,
      i: nat)
    requires Allocated(p, g, live, intervals, m) && i < |p.instrs|
    ensures WritesApart(p.instrs[i], (x: nat) => PlaceOf(m, x))
  {
    forall x, y | x in WriteSlots(p.instrs[i]) && y in WriteSlots(p.instrs[i]) && PlaceOf(m, x) == PlaceOf(m, y)
      ensures x == y
    {
      if x != y {
        WritesKeepApart(p, g, live, intervals, m, i, y, x, 0);
      }
    }
  }

  // ----- whole runs -----

  /** The same point of the run, with everything that is still needed in place. */
  ghost predicate Lockstep(p: RuntimeProgram, g: BlockGraph, live: Live, m: RuntimeSlotMap, s: State, t: State)
    requires g.Cuts(p) && Sized(g, live)
  {
    && t == s.(frame := t.frame)
    && (s.status == Running && s.pc < |p.instrs| ==> InPlace(p, g, live, m, s.pc, s.frame, t.frame))
  }

  lemma ControlAlike(w: World, m: RuntimeSlotMap, i: RuntimeInstr, s: State, h: Frame)
    requires IsControl(i)
    requires ReadsTrack(i, (o: RuntimeOperand) => PlaceOperand(m, o), (x: nat) => PlaceOf(m, x), s.frame, h)
    ensures StepAt(w, AllocateInstr(m, i), s.(frame := h)) == StepAt(w, i, s).(frame := h)
    ensures StepAt(w, i, s).frame == s.frame && WriteSlots(i) == []
  {
    var fo, fs := (o: RuntimeOperand) => PlaceOperand(m, o), (x: nat) => PlaceOf(m, x);
    TakenMapped(i, fo, fs, s.frame, h);
    hide Taken;
    hide PlaceOf;
    hide ReadsTrack;
  }

  lemma LockstepControl(w: World, p: RuntimeProgram, g: BlockGraph, live: Live, intervals: seq<LiveInterval>,
      m: RuntimeSlotMap, s: State, t: State)
    requires Allocated(p, g, live, intervals, m) && Lockstep(p, g, live, m, s, t) && StackOfCalls(p, s)
    requires s.status == Running && s.pc < |p.instrs| && IsControl(p.instrs[s.pc])
    ensures Lockstep(p, g, live, m, Step(w, p, s), StepAt(w, AllocateInstr(m, p.instrs[s.pc]), t))
  {
    var s' := Step(w, p, s);
    BlockNonempty(g, p, g.block_of[s.pc]);
    ReadsLive(p, g, live, m, s.pc, s.frame, t.frame);
    StepFollows(w, p, s);
    hide InPlace;
    hide PlaceOf;
    ControlAlike(w, m, p.instrs[s.pc], s, t.frame);
    hide StepAt;
    if s'.status == Running && s'.pc < |p.instrs| {
      StaysInPlace(p, g, live, intervals, m, s.pc, s'.pc, s.frame, t.frame, s.frame, t.frame);
    }
  }

  lemma PlainStep(w: World, i: RuntimeInstr, s: State)
    requires !IsControl(i)
    ensures StepAt(w, i, s) == Advance(s, Exec(w, i, s.frame, s.trace))
  {
    hide Exec;
  }

  lemma LockstepPlain(w: World, p: RuntimeProgram, g: BlockGraph, live: Live, intervals: seq<LiveInterval>,
      m: RuntimeSlotMap, s: State, t: State)
    requires Allocated(p, g, live, intervals, m) && Lockstep(p, g, live, m, s, t)
    requires s.status == Running && s.pc < |p.instrs| && !IsControl(p.instrs[s.pc])
    ensures Lockstep(p, g, live, m, Step(w, p, s), StepAt(w, AllocateInstr(m, p.instrs[s.pc]), t))
  {
    StepInPlace(w, p, g, live, intervals, m, s.pc, s.frame, t.frame, s.trace);
    PlainStep(w, p.instrs[s.pc], s);
    PlainStep(w, AllocateInstr(m, p.instrs[s.pc]), t);
    hide Allocated;
    hide InPlace;
    hide Exec;
    hide StepAt;
    hide AllocateInstr;
  }

  lemma LockstepStep(w: World, p: RuntimeProgram, g: BlockGraph, live: Live, intervals: seq<LiveInterval>,
      m: RuntimeSlotMap, places: nat, s: State, t: State)
    requires Allocated(p, g, live, intervals, m) && Lockstep(p, g, live, m, s, t) && StackOfCalls(p, s)
    ensures Lockstep(p, g, live, m, Step(w, p, s), Step(w, Allocate(p, m, places), t))
  {
    hide StepAt;
    hide InPlace;
    if s.status == Running && s.pc < |p.instrs| {
      if IsControl(p.instrs[s.pc]) {
        LockstepControl(w, p, g, live, intervals, m, s, t);
      } else {
        LockstepPlain(w, p, g, live, intervals, m, s, t);
      }
    }
    hide Allocated;
    hide AllocateInstr;
  }

  lemma LockstepStart(p: RuntimeProgram, g: BlockGraph, live: Live, intervals: seq<LiveInterval>, m: RuntimeSlotMap,
      f: Frame, h: Frame)
    requires Allocated(p, g, live, intervals, m) && LoadedAtEntry(live, m, f, h)
    ensures Lockstep(p, g, live, m, Start(f), Start(h))
  {
    if |p.instrs| > 0 {
      BlockNonempty(g, p, 0);
      assert Settled(p, g, live, 0);
    }
  }

  lemma {:induction false} LockstepOnRuns(w: World, p: RuntimeProgram, g: BlockGraph, live: Live,
      intervals: seq<LiveInterval>, m: RuntimeSlotMap, places: nat, f: Frame, h: Frame, n: nat)
    requires Allocated(p, g, live, intervals, m) && LoadedAtEntry(live, m, f, h)
    ensures Lockstep(p, g, live, m, Run(w, p, Start(f), n), Run(w, Allocate(p, m, places), Start(h), n))
  {
    hide Step;
    hide Lockstep;
    if n == 0 {
      LockstepStart(p, g, live, intervals, m, f, h);
    } else {
      LockstepOnRuns(w, p, g, live, intervals, m, places, f, h, n - 1);
      RunStack(w, p, f, n - 1);
      LockstepStep(w, p, g, live, intervals, m, places, Run(w, p, Start(f), n - 1),
        Run(w, Allocate(p, m, places), Start(h), n - 1));
    }
  }

  /** The places of the slots live into the entry block hold their initial values. */
  ghost predicate LoadedAtEntry(live: Live, m: RuntimeSlotMap, f: Frame, h: Frame) {
    |live.into| > 0 && forall x :: x in live.into[0] ==> Get(h, PlaceOf(m, x)) == Get(f, x)
  }

  /** Register allocation refines slots: the two programs can be observed to do the same at every step. */
  lemma AllocationPreservesRuns(w: World, p: RuntimeProgram, g: BlockGraph, live: Live, intervals: seq<LiveInterval>,
      m: RuntimeSlotMap, places: nat, f: Frame, h: Frame, n: nat)
    requires Allocated(p, g, live, intervals, m) && LoadedAtEntry(live, m, f, h)
    ensures Obs(Run(w, Allocate(p, m, places), Start(h), n)) == Obs(Run(w, p, Start(f), n))
  {
    LockstepOnRuns(w, p, g, live, intervals, m, places, f, h, n);
    hide Run;
    hide Allocated;
  }

  /** When nothing is live into the entry block, the initial contents of the places do not matter. */
  lemma AllocationPreservesBehaviour(p: RuntimeProgram, g: BlockGraph, live: Live, intervals: seq<LiveInterval>,
      m: RuntimeSlotMap, places: nat)
    requires Allocated(p, g, live, intervals, m) && |live.into| > 0 && live.into[0] == {}
    ensures SameBehaviour(p, Allocate(p, m, places))
  {
    var q := Allocate(p, m, places);
    hide Run;
    hide Allocate;
    forall w: World, f: Frame, n: nat
      ensures Obs(Run(w, q, Start(f), n)) == Obs(Run(w, p, Start(f), n))
    {
      AllocationPreservesRuns(w, p, g, live, intervals, m, places, f, f, n);
    }
    hide Allocated;
    forall w: World, f: Frame, n: nat
      ensures Matched(w, q, f, Obs(Run(w, p, Start(f), n)))
      ensures Matched(w, p, f, Obs(Run(w, q, Start(f), n)))
    {
      assert Obs(Run(w, q, Start(f), n)) == Obs(Run(w, p, Start(f), n));
    }
  }

  /** The map of `from_lir` is safe for every program whose reads are all visible, whatever the priorities. */
  method AllocateSlots(p: RuntimeProgram, g: BlockGraph, ghost live: Live, intervals: seq<LiveInterval>,
      packed_byte: seq<bool>, registers: nat, priority: seq<nat>, spill_order: seq<nat>)
    returns (m: RuntimeSlotMap)
    requires InRange(p) && g.Valid(p)
    requires Sized(g, live) && Liveness.IsFixpoint(p, g, live) && Exact(p, g, live)
      && IntervalsRight(p, g, live, intervals)
    requires IsPermutation(priority, |intervals|) && IsPermutation(spill_order, |intervals|)
    ensures Allocated(p, g, live, intervals, m)
    ensures live.into[0] == {} ==> forall places: nat :: SameBehaviour(p, Allocate(p, m, places))
  {
    IntervalsOrdered(p, g, live, intervals);
    m := FromLir(p, intervals, packed_byte, registers, priority, spill_order);
    assert Allocated(p, g, live, intervals, m);
    hide Allocated;
    hide Allocate;
    if live.into[0] == {} {
      forall places: nat
        ensures SameBehaviour(p, Allocate(p, m, places))
      {
        AllocationPreservesBehaviour(p, g, live, intervals, m, places);
      }
    }
  }

  lemma IntervalsOrdered(p: RuntimeProgram, g: BlockGraph, live: Live, intervals: seq<LiveInterval>)
    requires g.Cuts(p) && Sized(g, live) && IntervalsRight(p, g, live, intervals)
    ensures AllOrdered(intervals) && forall k :: 0 <= k < |intervals| ==> intervals[k].slot < p.slots
  {
    forall k | 0 <= k < |intervals|
      ensures InSequence(intervals[k].segments)
    {
      assert IntervalRight(p, g, live, intervals[k]);
    }
  }
}
