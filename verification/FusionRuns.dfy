/** Programs run the same with fused groups whose dropped temporaries are never missed, along no path of
    control, returns included. */
module FusionRuns {
  import opened Words
  import opened Ir
  import opened Semantics
  import opened Execution
  import opened Blocks
  import opened Fusion
  import opened FusionCorrectness

  ghost predicate CallFree(p: RuntimeProgram) {
    forall i :: 0 <= i < |p.instrs| ==> !p.instrs[i].Call?
  }

  // ----- slots that are not read later do not matter -----

  ghost predicate NeededWithin(p: RuntimeProgram, i: nat, x: nat, n: nat)
    requires i < |p.instrs|
    decreases n
  {
    n > 0 &&
    (ReadsSlot(p.instrs[i], x) ||
     (x !in WriteSlots(p.instrs[i]) && exists j: nat :: StaticNext(p, i, j) && NeededWithin(p, j, x, n - 1)))
  }

  /** Some path of control from instruction `i`, returns included, reads slot `x` before writing it. */
  ghost predicate Needed(p: RuntimeProgram, i: nat, x: nat) {
    i < |p.instrs| && exists n: nat :: NeededWithin(p, i, x, n)
  }

  lemma NeededHere(p: RuntimeProgram, i: nat, x: nat)
    requires i < |p.instrs| && ReadsSlot(p.instrs[i], x)
    ensures Needed(p, i, x)
  {
    hide ReadsSlot;
    assert NeededWithin(p, i, x, 1);
  }

  lemma NeededBeyond(p: RuntimeProgram, i: nat, j: nat, x: nat)
    requires i < |p.instrs| && x !in WriteSlots(p.instrs[i]) && StaticNext(p, i, j) && Needed(p, j, x)
    ensures Needed(p, i, x)
  {
    hide ReadsSlot;
    hide WriteSlots;
    hide StaticNext;
    var n: nat :| NeededWithin(p, j, x, n);
    assert NeededWithin(p, i, x, n + 1);
  }

  /** The slots that may still be read from `i` on have the same content. */
  ghost predicate AgreeLater(p: RuntimeProgram, i: nat, f: Frame, h: Frame) {
    forall x :: Needed(p, i, x) ==> Get(h, x) == Get(f, x)
  }

  /** The same point of the run, up to slots that are not read later. */
  ghost predicate Tracks(p: RuntimeProgram, s: State, t: State) {
    && t == s.(frame := t.frame) && StackOfCalls(p, s)
    && (s.status == Running ==> AgreeLater(p, s.pc, s.frame, t.frame))
  }

  lemma ExecReads(w: World, i: RuntimeInstr, f: Frame, h: Frame, t: Trace)
    requires !IsControl(i) && forall x :: ReadsSlot(i, x) ==> Get(h, x) == Get(f, x)
    ensures match Exec(w, i, f, t)
      case Stop(status) => Exec(w, i, h, t) == Stop(status)
      case Next(f', t') =>
        && Exec(w, i, h, t).Next? && Exec(w, i, h, t).trace == t'
        && (forall x :: x in WriteSlots(i) ==> Get(Exec(w, i, h, t).frame, x) == Get(f', x))
        && (forall x :: x !in WriteSlots(i) ==> Get(Exec(w, i, h, t).frame, x) == Get(h, x) && Get(f', x) == Get(f, x))
  {
    ExecFootprint(w, i, f, h, t);
    hide Exec;
  }

  lemma AgreeAfter(p: RuntimeProgram, i: nat, j: nat, f: Frame, h: Frame, f': Frame, h': Frame)
    requires i < |p.instrs| && StaticNext(p, i, j) && AgreeLater(p, i, f, h)
    requires forall x :: x in WriteSlots(p.instrs[i]) ==> Get(h', x) == Get(f', x)
    requires forall x :: x !in WriteSlots(p.instrs[i]) ==> Get(h', x) == Get(h, x) && Get(f', x) == Get(f, x)
    ensures AgreeLater(p, j, f', h')
  {
    hide Needed;
    forall x | Needed(p, j, x)
      ensures Get(h', x) == Get(f', x)
    {
      if x !in WriteSlots(p.instrs[i]) {
        NeededBeyond(p, i, j, x);
      }
    }
  }

  lemma ReadsAgree(p: RuntimeProgram, i: nat, f: Frame, h: Frame)
    requires i < |p.instrs| && AgreeLater(p, i, f, h)
    ensures forall x :: ReadsSlot(p.instrs[i], x) ==> Get(h, x) == Get(f, x)
  {
    hide Needed;
    hide ReadsSlot;
    forall x | ReadsSlot(p.instrs[i], x)
      ensures Get(h, x) == Get(f, x)
    {
      NeededHere(p, i, x);
    }
  }

  lemma AgreeNowhere(p: RuntimeProgram, i: nat, f: Frame, h: Frame)
    requires i >= |p.instrs|
    ensures AgreeLater(p, i, f, h)
  {}

  lemma PlainTracks(w: World, p: RuntimeProgram, s: State, t: State)
    requires Tracks(p, s, t) && s.status == Running && s.pc < |p.instrs| && !IsControl(p.instrs[s.pc])
    ensures Tracks(p, Step(w, p, s), Step(w, p, t))
  {
    var i := p.instrs[s.pc];
    ReadsAgree(p, s.pc, s.frame, t.frame);
    ExecReads(w, i, s.frame, t.frame, s.trace);
    hide Exec;
    var e, d := Exec(w, i, s.frame, s.trace), Exec(w, i, t.frame, s.trace);
    if e.Next? {
      if s.pc + 1 < |p.instrs| {
        assert StaticNext(p, s.pc, s.pc + 1);
        AgreeAfter(p, s.pc, s.pc + 1, s.frame, t.frame, e.frame, d.frame);
      } else {
        AgreeNowhere(p, s.pc + 1, e.frame, d.frame);
      }
    }
    hide AgreeLater;
  }

  lemma ControlTracks(w: World, p: RuntimeProgram, s: State, t: State)
    requires Tracks(p, s, t) && s.status == Running && s.pc < |p.instrs| && IsControl(p.instrs[s.pc])
    ensures Tracks(p, Step(w, p, s), Step(w, p, t))
  {
    var i := p.instrs[s.pc];
    ReadsAgree(p, s.pc, s.frame, t.frame);
    assert forall x :: x in ReadSlots(i) ==> ReadsSlot(i, x);
    TakenFootprint(i, s.frame, t.frame);
    StepFollows(w, p, s);
    hide Taken;
    var s' := Step(w, p, s);
    assert WriteSlots(i) == [];
    if s'.status == Running {
      if s'.pc < |p.instrs| {
        AgreeAfter(p, s.pc, s'.pc, s.frame, t.frame, s.frame, t.frame);
      } else {
        AgreeNowhere(p, s'.pc, s.frame, t.frame);
      }
    }
    hide AgreeLater;
  }

  lemma StepTracks(w: World, p: RuntimeProgram, s: State, t: State)
    requires Tracks(p, s, t)
    ensures Tracks(p, Step(w, p, s), Step(w, p, t))
  {
    hide AgreeLater;
    if s.status == Running && s.pc < |p.instrs| {
      if IsControl(p.instrs[s.pc]) {
        ControlTracks(w, p, s, t);
      } else {
        PlainTracks(w, p, s, t);
      }
    }
  }

  lemma {:induction false} RunTracks(w: World, p: RuntimeProgram, s: State, t: State, k: nat)
    requires Tracks(p, s, t)
    ensures Tracks(p, Run(w, p, s, k), Run(w, p, t, k))
  {
    hide Step;
    hide Tracks;
    if k > 0 {
      RunTracks(w, p, s, t, k - 1);
      StepTracks(w, p, Run(w, p, s, k - 1), Run(w, p, t, k - 1));
    }
  }

  // ----- the machine with fused groups -----

  datatype Fused = Narrow(t: nat, u: nat, narrow: U32Affine) | Choose(parts: SelectParts, choose: AffineSelect)

  function Consumed(d: Fused): nat {
    match d case Narrow(_, _, r) => r.consumed case Choose(_, r) => r.consumed
  }

  function FusedFrame(d: Fused, f: Frame): Frame {
    match d case Narrow(_, _, r) => U32Frame(r, f) case Choose(_, r) => SelectFrame(r, f)
  }

  predicate Temporary(d: Fused, x: nat) {
    match d case Narrow(t, u, _) => x == t || x == u
      case Choose(s, _) => x == s.cond || x == s.mask || x == s.coefficient
  }

  /** Groups that the backend fuses; selections only where the mask has a slot of its own. */
  ghost predicate FusesAt(p: RuntimeProgram, i: nat, d: Fused) {
    match d
    case Narrow(t, u, r) => U32Fuses(p, i, t, u, r)
    case Choose(s, r) => SelectFuses(p, i, s, r) && s.mask != s.coefficient
  }

  ghost predicate PlanOffered(p: RuntimeProgram, plan: map<nat, Fused>) {
    forall i :: i in plan ==> FusesAt(p, i, plan[i])
  }

  /** No path of control reads a temporary of the group that is not there any more. */
  ghost predicate TemporariesDead(p: RuntimeProgram, i: nat, d: Fused) {
    forall x :: Temporary(d, x) ==> !Needed(p, i + Consumed(d), x)
  }

  ghost predicate PlanOk(p: RuntimeProgram, plan: map<nat, Fused>) {
    forall i :: i in plan ==> FusesAt(p, i, plan[i]) && TemporariesDead(p, i, plan[i])
  }

  ghost function FusedStep(w: World, p: RuntimeProgram, plan: map<nat, Fused>, s: State): State {
    if s.status == Running && s.pc in plan then
      s.(pc := s.pc + Consumed(plan[s.pc]), frame := FusedFrame(plan[s.pc], s.frame))
    else Step(w, p, s)
  }

  ghost function FusedRun(w: World, p: RuntimeProgram, plan: map<nat, Fused>, f: Frame, n: nat): State {
    if n == 0 then Start(f) else FusedStep(w, p, plan, FusedRun(w, p, plan, f, n - 1))
  }

  /** One group: the same effect on everything but its temporaries. */
  lemma GroupFrames(p: RuntimeProgram, i: nat, d: Fused, f: Frame)
    requires FusesAt(p, i, d)
    ensures Consumed(d) >= 3 && IsStraight(p, i, Consumed(d))
    ensures forall x :: !Temporary(d, x) ==> Get(Straight(p, i, f, Consumed(d)), x) == Get(FusedFrame(d, f), x)
  {
    hide ReadLater;
    hide Straight;
    hide U32Frame;
    hide SelectFrame;
    match d {
      case Narrow(t, u, r) => U32Group(p, i, t, u, r, f);
      case Choose(s, r) => SelectGroup(p, i, s, r, f);
    }
  }

  /** Nothing that is read afterwards differs. */
  lemma GroupEffect(p: RuntimeProgram, i: nat, d: Fused, f: Frame)
    requires FusesAt(p, i, d) && TemporariesDead(p, i, d)
    ensures Consumed(d) >= 3 && IsStraight(p, i, Consumed(d))
    ensures AgreeLater(p, i + Consumed(d), Straight(p, i, f, Consumed(d)), FusedFrame(d, f))
  {
    GroupFrames(p, i, d, f);
    hide FusesAt;
    hide Straight;
    hide FusedFrame;
    hide Consumed;
    hide Temporary;
    hide Needed;
  }

  lemma AgreeTransitive(p: RuntimeProgram, i: nat, f: Frame, g: Frame, h: Frame)
    requires AgreeLater(p, i, f, g) && AgreeLater(p, i, g, h)
    ensures AgreeLater(p, i, f, h)
  {
    hide Needed;
  }

  lemma GroupTracks(w: World, p: RuntimeProgram, plan: map<nat, Fused>, s: State, t: State)
    requires PlanOk(p, plan) && Tracks(p, s, t) && s.status == Running && s.pc in plan
    ensures Tracks(p, Run(w, p, s, Consumed(plan[s.pc])), FusedStep(w, p, plan, t))
    ensures Run(w, p, s, Consumed(plan[s.pc])).pc == s.pc + Consumed(plan[s.pc])
  {
    hide Run;
    hide Step;
    hide Straight;
    hide AgreeLater;
    hide FusedFrame;
    hide FusesAt;
    var d := plan[s.pc];
    GroupEffect(p, s.pc, d, t.frame);
    hide PlanOk;
    RunTracks(w, p, s, t, Consumed(d));
    StraightRun(w, p, s, Consumed(d));
    StraightRun(w, p, t, Consumed(d));
    hide IsStraight;
    var s', t' := Run(w, p, s, Consumed(d)), Run(w, p, t, Consumed(d));
    AgreeTransitive(p, s'.pc, s'.frame, t'.frame, FusedFrame(d, t.frame));
  }

  /** Every state of the fused machine is a state of the original, up to slots that are not read later. */
  lemma {:induction false} FusedFollows(w: World, p: RuntimeProgram, plan: map<nat, Fused>, f: Frame, n: nat)
      returns (m: nat)
    requires PlanOk(p, plan)
    ensures Tracks(p, Run(w, p, Start(f), m), FusedRun(w, p, plan, f, n))
  {
    hide Step;
    hide PlanOk;
    hide Tracks;
    if n == 0 {
      m := 0;
      StartTracks(p, f);
    } else {
      var before := FusedFollows(w, p, plan, f, n - 1);
      var s, t := Run(w, p, Start(f), before), FusedRun(w, p, plan, f, n - 1);
      TracksSame(p, s, t);
      if s.status == Running && s.pc in plan {
        m := before + Consumed(plan[s.pc]);
        GroupTracks(w, p, plan, s, t);
        RunSplit(w, p, Start(f), before, Consumed(plan[s.pc]));
      } else {
        m := before + 1;
        StepTracks(w, p, s, t);
      }
    }
  }

  lemma StartTracks(p: RuntimeProgram, f: Frame)
    ensures Tracks(p, Start(f), Start(f))
  {}

  lemma TracksSame(p: RuntimeProgram, s: State, t: State)
    requires Tracks(p, s, t)
    ensures t.pc == s.pc && t.status == s.status && Obs(t) == Obs(s)
  {}

  /** Inside a group, nothing can be observed. */
  lemma QuietInside(w: World, p: RuntimeProgram, plan: map<nat, Fused>, s: State, k: nat)
    requires PlanOk(p, plan) && s.status == Running && s.pc in plan && k <= Consumed(plan[s.pc])
    ensures Obs(Run(w, p, s, k)) == Obs(s)
  {
    assert FusesAt(p, s.pc, plan[s.pc]);
    GroupFrames(p, s.pc, plan[s.pc], s.frame);
    hide PlanOk;
    hide FusesAt;
    StraightRun(w, p, s, k);
    hide Run;
  }

  /** Every state of the original lies at, or inside the group that starts at, a state of the fused machine. */
  lemma {:induction false} FusedReaches(w: World, p: RuntimeProgram, plan: map<nat, Fused>, f: Frame, n: nat)
      returns (m: nat, k: nat)
    requires PlanOk(p, plan)
    ensures k <= n && Tracks(p, Run(w, p, Start(f), k), FusedRun(w, p, plan, f, m))
    ensures var s := Run(w, p, Start(f), k);
      k == n || (s.status == Running && s.pc in plan && n < k + Consumed(plan[s.pc]))
  {
    hide Step;
    hide PlanOk;
    hide Tracks;
    if n == 0 {
      m, k := 0, 0;
      StartTracks(p, f);
    } else {
      m, k := FusedReaches(w, p, plan, f, n - 1);
      var s, t := Run(w, p, Start(f), k), FusedRun(w, p, plan, f, m);
      TracksSame(p, s, t);
      if s.status == Running && s.pc in plan {
        LongGroup(p, plan, s.pc);
        if n == k + Consumed(plan[s.pc]) {
          GroupTracks(w, p, plan, s, t);
          RunSplit(w, p, Start(f), k, Consumed(plan[s.pc]));
          m, k := m + 1, n;
        }
      } else {
        StepTracks(w, p, s, t);
        m, k := m + 1, n;
      }
    }
  }

  lemma LongGroup(p: RuntimeProgram, plan: map<nat, Fused>, i: nat)
    requires PlanOk(p, plan) && i in plan
    ensures Consumed(plan[i]) >= 3
  {
    assert FusesAt(p, i, plan[i]);
    GroupFrames(p, i, plan[i], map[]);
  }

  ghost predicate FusedShows(w: World, p: RuntimeProgram, plan: map<nat, Fused>, f: Frame, o: (Trace, Status)) {
    exists m: nat :: Obs(FusedRun(w, p, plan, f, m)) == o
  }

  /** A program and its fused form can be observed to do the same things, calls included. */
  lemma FusionPreservesBehaviour(w: World, p: RuntimeProgram, plan: map<nat, Fused>, f: Frame, n: nat)
    requires PlanOk(p, plan)
    ensures FusedShows(w, p, plan, f, Obs(Run(w, p, Start(f), n)))
    ensures Matched(w, p, f, Obs(FusedRun(w, p, plan, f, n)))
  {
    hide Run;
    hide FusedRun;
    hide Tracks;
    hide PlanOk;
    var m, k := FusedReaches(w, p, plan, f, n);
    var s := Run(w, p, Start(f), k);
    if k < n {
      QuietInside(w, p, plan, s, n - k);
      RunSplit(w, p, Start(f), k, n - k);
    }
    TracksSame(p, s, FusedRun(w, p, plan, f, m));
    var j := FusedFollows(w, p, plan, f, n);
    TracksSame(p, Run(w, p, Start(f), j), FusedRun(w, p, plan, f, n));
    assert Obs(FusedRun(w, p, plan, f, m)) == Obs(Run(w, p, Start(f), n));
    assert Obs(Run(w, p, Start(f), j)) == Obs(FusedRun(w, p, plan, f, n));
  }

  // ----- programs without calls -----

  lemma {:induction false} SearchSeesAll(p: RuntimeProgram, i: nat, x: nat, n: nat)
    requires CallFree(p) && i < |p.instrs| && NeededWithin(p, i, x, n)
    ensures ReadWithin(p, i, x, n)
    decreases n
  {
    hide ReadsSlot;
    hide WriteSlots;
    if !ReadsSlot(p.instrs[i], x) {
      var j: nat :| StaticNext(p, i, j) && NeededWithin(p, j, x, n - 1);
      SearchSeesAll(p, j, x, n - 1);
      assert Follows(p, i, j);
    }
  }

  /** Without calls there are no return edges to miss, so the search of the backend is enough. */
  lemma CallFreePlanOk(p: RuntimeProgram, plan: map<nat, Fused>)
    requires CallFree(p) && PlanOffered(p, plan)
    ensures PlanOk(p, plan)
  {
    forall i | i in plan
      ensures FusesAt(p, i, plan[i]) && TemporariesDead(p, i, plan[i])
    {
      hide FusesAt;
      CallFreeDead(p, i, plan[i]);
    }
  }

  lemma CallFreeDead(p: RuntimeProgram, i: nat, d: Fused)
    requires CallFree(p) && FusesAt(p, i, d)
    ensures TemporariesDead(p, i, d)
  {
    OfferedUnread(p, i, d);
    hide FusesAt;
    hide Temporary;
    hide Consumed;
    hide ReadLater;
    hide Needed;
    forall x | Temporary(d, x)
      ensures !Needed(p, i + Consumed(d), x)
    {
      NeededIsRead(p, i + Consumed(d), x);
    }
  }

  lemma NeededIsRead(p: RuntimeProgram, i: nat, x: nat)
    requires CallFree(p)
    ensures Needed(p, i, x) ==> ReadLater(p, i, x)
  {
    hide CallFree;
    if Needed(p, i, x) {
      var n: nat :| NeededWithin(p, i, x, n);
      SearchSeesAll(p, i, x, n);
    }
  }

  lemma OfferedUnread(p: RuntimeProgram, i: nat, d: Fused)
    requires FusesAt(p, i, d)
    ensures forall x :: Temporary(d, x) ==> !ReadLater(p, i + Consumed(d), x)
  {
    hide IsU32Affine;
    hide IsAffineSelect;
    hide ReadLater;
  }

  /** A program without calls behaves the same with every set of groups the backend offers. */
  lemma CallFreeFusion(w: World, p: RuntimeProgram, plan: map<nat, Fused>, f: Frame, n: nat)
    requires CallFree(p) && PlanOffered(p, plan)
    ensures FusedShows(w, p, plan, f, Obs(Run(w, p, Start(f), n)))
    ensures Matched(w, p, f, Obs(FusedRun(w, p, plan, f, n)))
  {
    CallFreePlanOk(p, plan);
    hide PlanOffered;
    FusionPreservesBehaviour(w, p, plan, f, n);
  }

  // ----- the instructions inside a group need no code of their own -----

  /** Groups do not overlap, and nothing jumps into one. */
  ghost predicate PlanApart(p: RuntimeProgram, plan: map<nat, Fused>) {
    && (forall i, j :: i in plan && j in plan && i < j ==> i + Consumed(plan[i]) <= j)
    && (forall i, j: nat :: i in plan && i < j < i + Consumed(plan[i]) ==> !IsTarget(p, j, |p.instrs|))
  }

  ghost predicate Outside(plan: map<nat, Fused>, pc: nat) {
    forall i :: i in plan ==> !(i < pc < i + Consumed(plan[i]))
  }

  /** The fused machine never stands on an instruction inside a group. */
  lemma {:induction false} NeverInside(w: World, p: RuntimeProgram, plan: map<nat, Fused>, f: Frame, n: nat)
    requires PlanOk(p, plan) && PlanApart(p, plan)
    ensures var t := FusedRun(w, p, plan, f, n); t.status == Running && t.pc < |p.instrs| ==> Outside(plan, t.pc)
  {
    hide Step;
    hide Tracks;
    hide FusedStep;
    hide PlanOk;
    hide PlanApart;
    hide Outside;
    if n == 0 {
      NothingBefore(plan);
    } else {
      NeverInside(w, p, plan, f, n - 1);
      var m := FusedFollows(w, p, plan, f, n - 1);
      StandsOutside(w, p, plan, Run(w, p, Start(f), m), FusedRun(w, p, plan, f, n - 1));
    }
  }

  lemma NothingBefore(plan: map<nat, Fused>)
    ensures Outside(plan, 0)
  {}

  lemma GroupStraight(p: RuntimeProgram, plan: map<nat, Fused>, i: nat)
    requires PlanOk(p, plan) && i in plan
    ensures IsStraight(p, i, Consumed(plan[i]))
  {
    hide Straight;
    hide FusedFrame;
    hide Consumed;
    hide TemporariesDead;
    assert FusesAt(p, i, plan[i]);
    hide FusesAt;
    GroupFrames(p, i, plan[i], map[]);
  }

  lemma NotControl(i: RuntimeInstr)
    requires NeverTraps(i)
    ensures !IsControl(i)
  {}

  lemma NoControlInside(p: RuntimeProgram, plan: map<nat, Fused>, i: nat, j: nat)
    requires PlanOk(p, plan) && i in plan && i <= j < i + Consumed(plan[i])
    ensures j < |p.instrs| && !IsControl(p.instrs[j])
  {
    GroupStraight(p, plan, i);
    hide PlanOk;
    hide Consumed;
    assert NeverTraps(p.instrs[j]);
    NotControl(p.instrs[j]);
    hide NeverTraps;
    hide IsControl;
  }

  lemma NoCallInside(p: RuntimeProgram, plan: map<nat, Fused>, pc: nat)
    requires PlanOk(p, plan)
    ensures forall i :: i in plan && i < pc < i + Consumed(plan[i]) ==> !IsContinuation(p, pc, |p.instrs|)
  {
    hide PlanOk;
    hide Consumed;
    forall i | i in plan && i < pc < i + Consumed(plan[i])
      ensures !IsContinuation(p, pc, |p.instrs|)
    {
      NoControlInside(p, plan, i, pc - 1);
    }
  }

  lemma StandsOutside(w: World, p: RuntimeProgram, plan: map<nat, Fused>, s: State, t: State)
    requires PlanOk(p, plan) && PlanApart(p, plan) && Tracks(p, s, t)
    requires t.status == Running && t.pc < |p.instrs| ==> Outside(plan, t.pc)
    ensures var t' := FusedStep(w, p, plan, t); t'.status == Running && t'.pc < |p.instrs| ==> Outside(plan, t'.pc)
  {
    hide AgreeLater;
    hide PlanOk;
    var t' := FusedStep(w, p, plan, t);
    if t.status == Running && t'.status == Running && t.pc in plan {
      hide Step;
      forall i | i in plan
        ensures !(i < t'.pc < i + Consumed(plan[i]))
      {}
    } else if t.status == Running && t'.status == Running && t'.pc < |p.instrs| {
      StepFollows(w, p, t);
      hide Step;
      assert t'.pc == t.pc + 1 || IsTarget(p, t'.pc, |p.instrs|) || IsContinuation(p, t'.pc, |p.instrs|);
      NoCallInside(p, plan, t'.pc);
    }
  }
}
