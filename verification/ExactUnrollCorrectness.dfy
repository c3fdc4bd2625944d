/** When a suppressed guard would always have let the loop go on, and what merging the increments changes. */
module ExactUnrollCorrectness {
  import opened Words
  import opened Ir
  import opened Semantics
  import opened Execution
  import opened Blocks
  import opened Fusion
  import opened FusionRuns
  import opened ExactUnroll

  predicate Inside(l: UnrolledLoop, i: nat) {
    l.header <= i <= l.latch
  }

  // ----- counting -----

  lemma {:induction false} UnitsGrow(p: RuntimeProgram, l: UnrolledLoop, i: nat, j: nat)
    requires i <= j
    ensures Units(p, l, i) <= Units(p, l, j)
  {
    if i < j {
      UnitsGrow(p, l, i, j - 1);
    }
  }

  /** A value the induction slot can have at the header. */
  predicate Aligned(l: UnrolledLoop, step: nat, a: int) {
    l.start <= a <= l.limit && step > 0 && (a - l.start) % step == 0
  }

  /** Below the limit there is room for a whole step. */
  lemma RoomForStep(l: UnrolledLoop, step: nat, a: int)
    requires Aligned(l, step, a) && a < l.limit && (l.limit - l.start) % step == 0
    ensures a + step <= l.limit && Aligned(l, step, a + step)
  {
    var x, y := (a - l.start) / step, (l.limit - l.start) / step;
    assert a - l.start == step * x && l.limit - l.start == step * y;
    if y < x + 1 {
      MulMono(y, x, step);
    }
    MulMono(x + 1, y, step);
    assert step * (x + 1) == step * x + step;
    DivUnique(a + step - l.start, step, x + 1, 0);
  }

  /** A guard that comes after `before` increments succeeds in every pass exactly when not all of the
      increments come before it. */
  lemma GuardAlwaysSucceedsIff(l: UnrolledLoop, step: nat, before: nat)
    requires l.start < l.limit && step > 0 && (l.limit - l.start) % step == 0
    ensures (forall a :: Aligned(l, step, a) && a < l.limit ==> a + before < l.limit) <==> before < step
  {
    if before < step {
      forall a | Aligned(l, step, a) && a < l.limit
        ensures a + before < l.limit
      {
        RoomForStep(l, step, a);
      }
    } else {
      var y := (l.limit - l.start) / step;
      assert l.limit - l.start == step * y && y >= 1;
      var a := l.limit - step;
      MulMono(1, y, step);
      assert step * (y - 1) == step * y - step;
      DivUnique(a - l.start, step, y - 1, 0);
      assert Aligned(l, step, a) && !(a + before < l.limit);
    }
  }

  /** The last increment comes after the last guard. */
  ghost predicate IncrementsEnd(p: RuntimeProgram, l: UnrolledLoop) {
    forall i: nat :: IsGuard(p, l, i) ==> Units(p, l, i) < Guards(p, l, l.latch)
  }

  /** The guards after the first decide nothing: no pass begins, or the increments end the loop. */
  ghost predicate GuardsNeedless(p: RuntimeProgram, l: UnrolledLoop) {
    l.start == l.limit || IncrementsEnd(p, l)
  }

  // ----- the induction slot on a run -----

  /** In the loop, the induction slot has an aligned value plus what this pass has added so far. */
  predicate InPass(p: RuntimeProgram, l: UnrolledLoop, pc: nat, value: u64) {
    var a := value - Units(p, l, pc);
    Aligned(l, Guards(p, l, l.latch), a) && (pc > l.header ==> a < l.limit)
  }

  predicate EnteredWith(l: UnrolledLoop, s: State) {
    s.pc == l.header && Get(s.frame, l.induction) == l.start
  }

  ghost predicate EntersRight(l: UnrolledLoop, s: State, s': State) {
    s.status == Running && s'.status == Running && !Inside(l, s.pc) && Inside(l, s'.pc) ==> EnteredWith(l, s')
  }

  /** On this run the loop is entered only at its header, and with the start value in the induction slot. */
  ghost predicate Entered(w: World, p: RuntimeProgram, f: Frame, l: UnrolledLoop) {
    (Inside(l, 0) ==> EnteredWith(l, Start(f))) && forall n: nat ::
      EntersRight(l, Run(w, p, Start(f), n), Run(w, p, Start(f), n + 1))
  }

  lemma UnrolledFacts(p: RuntimeProgram, l: UnrolledLoop)
    requires IsUnrolledLoop(p, l)
    ensures l.header < l.latch < |p.instrs| && l.start <= l.limit && IsGuard(p, l, l.header)
      && p.instrs[l.latch] == Jump(l.header)
    ensures var g := Guards(p, l, l.latch); g >= 2 && Units(p, l, l.latch) == g && (l.limit - l.start) % g == 0
  {
    hide BodyFits;
    hide StartsWith;
    hide Guards;
    hide Units;
  }

  lemma BodyAt(p: RuntimeProgram, l: UnrolledLoop, i: nat)
    requires IsUnrolledLoop(p, l) && l.header <= i < l.latch
    ensures i < |p.instrs| && InUnrolled(p, l, i)
  {
    hide InUnrolled;
    hide StartsWith;
    hide IsGuard;
    hide Guards;
    hide Units;
  }

  lemma PassAtEntry(p: RuntimeProgram, l: UnrolledLoop, s: State)
    requires IsUnrolledLoop(p, l) && EnteredWith(l, s)
    ensures InPass(p, l, s.pc, Get(s.frame, l.induction))
  {
    UnrolledFacts(p, l);
    hide IsUnrolledLoop;
  }

  /** The value of the induction slot after instruction `i`, and where control goes inside the loop. */
  lemma PassGoesOn(p: RuntimeProgram, l: UnrolledLoop, i: nat, value: u64)
    requires IsUnrolledLoop(p, l) && l.header <= i < l.latch && InPass(p, l, i, value)
    requires IsGuard(p, l, i) ==> value < l.limit
    ensures IsUnit(p, l, i) ==> value + 1 < WORD && InPass(p, l, i + 1, value + 1)
    ensures !IsUnit(p, l, i) ==> InPass(p, l, i + 1, value)
  {
    UnrolledFacts(p, l);
    UnitsGrow(p, l, i + 1, l.latch);
    hide IsUnrolledLoop;
    hide Guards;
    var g := Guards(p, l, l.latch);
    if i > l.header {
      RoomForStep(l, g, value - Units(p, l, i));
    }
    assert Units(p, l, i + 1) == Units(p, l, i) + (if IsUnit(p, l, i) then 1 else 0);
  }

  lemma PassGoesBack(p: RuntimeProgram, l: UnrolledLoop, value: u64)
    requires IsUnrolledLoop(p, l) && InPass(p, l, l.latch, value)
    ensures InPass(p, l, l.header, value)
  {
    UnrolledFacts(p, l);
    hide IsUnrolledLoop;
    hide Guards;
    RoomForStep(l, Guards(p, l, l.latch), value - Units(p, l, l.latch));
    assert Units(p, l, l.header) == 0;
  }

  /** A suppressed guard would have let the loop go on. */
  lemma SuppressedSucceeds(p: RuntimeProgram, l: UnrolledLoop, i: nat, value: u64)
    requires IsUnrolledLoop(p, l) && GuardsNeedless(p, l) && Suppresses(p, l, i) && InPass(p, l, i, value)
    ensures value < l.limit
  {
    UnrolledFacts(p, l);
    hide IsUnrolledLoop;
    hide Guards;
    hide Units;
    RoomForStep(l, Guards(p, l, l.latch), value - Units(p, l, i));
  }

  // ----- one step of the original -----

  lemma GuardStep(w: World, p: RuntimeProgram, l: UnrolledLoop, s: State)
    requires s.status == Running && IsGuard(p, l, s.pc)
    ensures Step(w, p, s) == s.(pc := if Get(s.frame, l.induction) < l.limit then s.pc + 1 else l.latch + 1)
  {}

  lemma UnitStep(w: World, p: RuntimeProgram, l: UnrolledLoop, s: State)
    requires s.status == Running && IsUnit(p, l, s.pc)
    ensures Step(w, p, s) == s.(pc := s.pc + 1, frame := s.frame[l.induction := (Get(s.frame, l.induction) + 1) % WORD])
  {}

  lemma LatchStep(w: World, p: RuntimeProgram, l: UnrolledLoop, s: State)
    requires s.status == Running && s.pc == l.latch && s.pc < |p.instrs| && p.instrs[s.pc] == Jump(l.header)
    ensures Step(w, p, s) == s.(pc := l.header)
  {}

  lemma PlainStep(w: World, p: RuntimeProgram, x: nat, s: State)
    requires s.status == Running && s.pc < |p.instrs| && !IsControl(p.instrs[s.pc]) && x !in WriteSlots(p.instrs[s.pc])
    ensures Step(w, p, s).status == Running ==>
      Step(w, p, s).pc == s.pc + 1 && Get(Step(w, p, s).frame, x) == Get(s.frame, x)
  {
    if Exec(w, p.instrs[s.pc], s.frame, s.trace).Next? {
      ExecWrites(w, p.instrs[s.pc], s.frame, s.trace);
    }
    hide Exec;
  }

  lemma PassStep(w: World, p: RuntimeProgram, l: UnrolledLoop, s: State)
    requires IsUnrolledLoop(p, l) && s.status == Running && Inside(l, s.pc)
      && InPass(p, l, s.pc, Get(s.frame, l.induction))
    ensures var s' := Step(w, p, s);
      s'.status == Running && Inside(l, s'.pc) ==> InPass(p, l, s'.pc, Get(s'.frame, l.induction))
  {
    hide Step;
    hide InPass;
    hide IsUnrolledLoop;
    UnrolledFacts(p, l);
    if s.pc == l.latch {
      LatchStep(w, p, l, s);
      PassGoesBack(p, l, Get(s.frame, l.induction));
    } else {
      PassStepInBody(w, p, l, s);
    }
  }

  lemma PassStepInBody(w: World, p: RuntimeProgram, l: UnrolledLoop, s: State)
    requires IsUnrolledLoop(p, l) && s.status == Running && l.header <= s.pc < l.latch
      && InPass(p, l, s.pc, Get(s.frame, l.induction))
    ensures var s' := Step(w, p, s);
      s'.status == Running && Inside(l, s'.pc) ==> InPass(p, l, s'.pc, Get(s'.frame, l.induction))
  {
    hide Step;
    hide InPass;
    hide IsUnrolledLoop;
    hide WriteSlots;
    hide IsControl;
    BodyAt(p, l, s.pc);
    var value := Get(s.frame, l.induction);
    if IsGuard(p, l, s.pc) {
      GuardStep(w, p, l, s);
    } else if IsUnit(p, l, s.pc) {
      UnitStep(w, p, l, s);
    } else {
      PlainStep(w, p, l.induction, s);
    }
    hide IsUnit;
    if IsGuard(p, l, s.pc) ==> value < l.limit {
      PassGoesOn(p, l, s.pc, value);
    }
    GuardIsNotUnit(p, l, s.pc);
  }

  lemma GuardIsNotUnit(p: RuntimeProgram, l: UnrolledLoop, i: nat)
    ensures !(IsGuard(p, l, i) && IsUnit(p, l, i))
  {}

  /** On every run that enters the loop right, the induction slot is as expected whenever control is inside. */
  lemma {:induction false} PassOnRun(w: World, p: RuntimeProgram, l: UnrolledLoop, f: Frame, n: nat)
    requires IsUnrolledLoop(p, l) && Entered(w, p, f, l)
    ensures var s := Run(w, p, Start(f), n);
      s.status == Running && Inside(l, s.pc) ==> InPass(p, l, s.pc, Get(s.frame, l.induction))
  {
    hide Step;
    hide IsUnrolledLoop;
    hide InPass;
    if n == 0 {
      if Inside(l, 0) {
        PassAtEntry(p, l, Start(f));
      }
    } else {
      PassOnRun(w, p, l, f, n - 1);
      var s := Run(w, p, Start(f), n - 1);
      assert EntersRight(l, Run(w, p, Start(f), n - 1), Run(w, p, Start(f), n - 1 + 1));
      if s.status == Running {
        if Inside(l, s.pc) {
          PassStep(w, p, l, s);
        } else if Run(w, p, Start(f), n).status == Running && Inside(l, Run(w, p, Start(f), n).pc) {
          PassAtEntry(p, l, Run(w, p, Start(f), n));
        }
      } else {
        StoppedStep(w, p, s);
      }
    }
  }

  lemma StoppedStep(w: World, p: RuntimeProgram, s: State)
    requires s.status != Running
    ensures Step(w, p, s) == s
  {}

  /** Every suppressed guard would have succeeded, on every run. */
  lemma SuppressedGuardsSucceed(w: World, p: RuntimeProgram, l: UnrolledLoop, f: Frame, n: nat)
    requires IsUnrolledLoop(p, l) && Entered(w, p, f, l) && GuardsNeedless(p, l)
    requires var s := Run(w, p, Start(f), n); s.status == Running && Suppresses(p, l, s.pc)
    ensures var s := Run(w, p, Start(f), n); Run(w, p, Start(f), n + 1) == s.(pc := s.pc + 1)
  {
    var s := Run(w, p, Start(f), n);
    PassOnRun(w, p, l, f, n);
    hide Entered;
    SuppressedSucceeds(p, l, s.pc, Get(s.frame, l.induction));
    GuardStep(w, p, l, s);
    hide Step;
    hide IsUnrolledLoop;
  }
}
