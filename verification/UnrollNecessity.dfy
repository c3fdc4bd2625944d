/** Where the increments must end: the guards of an unrolled loop succeed in every pass exactly when the last
    increment comes after the last guard, and on a run a later guard fails in the last pass. */
module UnrollNecessity {
  import opened Words
  import opened Ir
  import opened Semantics
  import opened Execution
  import opened ExactUnroll
  import opened ExactUnrollCorrectness

  /** In every pass that the header lets begin, every suppressed guard succeeds. */
  ghost predicate SuppressedSucceed(p: RuntimeProgram, l: UnrolledLoop) {
    forall i: nat, a: nat :: Suppresses(p, l, i) && Aligned(l, Guards(p, l, l.latch), a) && a < l.limit ==>
      a + Units(p, l, i) < l.limit
  }

  /** The suppressed guards of the program succeed in every pass exactly when no pass begins or the increments
      end the loop. */
  lemma SuppressedSucceedIff(p: RuntimeProgram, l: UnrolledLoop)
    requires IsUnrolledLoop(p, l)
    ensures SuppressedSucceed(p, l) <==> GuardsNeedless(p, l)
  {
    UnrolledFacts(p, l);
    hide IsUnrolledLoop;
    hide Guards;
    if l.start == l.limit {
      return;
    }
    var step := Guards(p, l, l.latch);
    forall i: nat | IsGuard(p, l, i)
      ensures Units(p, l, i) < step <==>
        forall a: nat :: Aligned(l, step, a) && a < l.limit ==> a + Units(p, l, i) < l.limit
    {
      GuardAlwaysSucceedsIff(l, step, Units(p, l, i));
    }
    assert Units(p, l, l.header) == 0;
    hide Units;
    hide Aligned;
  }

  // ----- the last pass of a run -----

  /** In the loop, on the way to the last pass and in it not yet past guard `i`. */
  ghost predicate BeforeFailure(p: RuntimeProgram, l: UnrolledLoop, i: nat, s: State) {
    && s.status == Running && Inside(l, s.pc)
    && var value := Get(s.frame, l.induction);
       && InPass(p, l, s.pc, value) && value - Units(p, l, s.pc) < l.limit
       && (value - Units(p, l, s.pc) + Guards(p, l, l.latch) == l.limit ==> s.pc <= i)
  }

  /** A suppressed guard is about to stop the loop. */
  ghost predicate Failing(p: RuntimeProgram, l: UnrolledLoop, s: State) {
    s.status == Running && Suppresses(p, l, s.pc) && Get(s.frame, l.induction) >= l.limit
  }

  function PassStart(p: RuntimeProgram, l: UnrolledLoop, s: State): int {
    Get(s.frame, l.induction) - Units(p, l, s.pc)
  }

  /** Guard `i` comes after all increments. */
  predicate IsLate(p: RuntimeProgram, l: UnrolledLoop, i: nat) {
    Suppresses(p, l, i) && Units(p, l, i) == Units(p, l, l.latch)
  }

  lemma LateIffNotEnd(p: RuntimeProgram, l: UnrolledLoop)
    requires IsUnrolledLoop(p, l)
    ensures !IncrementsEnd(p, l) <==> exists i: nat :: IsLate(p, l, i)
  {
    UnrolledFacts(p, l);
    hide IsUnrolledLoop;
    hide Guards;
    assert Units(p, l, l.header) == 0;
    forall i: nat | IsGuard(p, l, i)
      ensures Units(p, l, i) <= Units(p, l, l.latch)
    {
      UnitsGrow(p, l, i, l.latch);
    }
    hide Units;
    if !IncrementsEnd(p, l) {
      var i: nat :| IsGuard(p, l, i) && Units(p, l, i) >= Guards(p, l, l.latch);
      assert IsLate(p, l, i);
    }
  }

  /** A guard that succeeds, an increment or any other instruction of the body. */
  lemma BodyStep(w: World, p: RuntimeProgram, l: UnrolledLoop, s: State)
    requires IsUnrolledLoop(p, l) && s.status == Running && l.header <= s.pc < l.latch
    requires IsGuard(p, l, s.pc) ==> Get(s.frame, l.induction) < l.limit
    requires IsUnit(p, l, s.pc) ==> Get(s.frame, l.induction) + 1 < WORD
    ensures var s' := Step(w, p, s);
      s'.status == Running ==>
        s'.pc == s.pc + 1
          && Get(s'.frame, l.induction) == Get(s.frame, l.induction) + if IsUnit(p, l, s.pc) then 1 else 0
  {
    BodyAt(p, l, s.pc);
    GuardIsNotUnit(p, l, s.pc);
    hide Step;
    hide IsUnrolledLoop;
    hide WriteSlots;
    hide IsControl;
    if IsGuard(p, l, s.pc) {
      GuardStep(w, p, l, s);
    } else if IsUnit(p, l, s.pc) {
      UnitStep(w, p, l, s);
    } else {
      PlainStep(w, p, l.induction, s);
    }
  }

  lemma BodyProgress(w: World, p: RuntimeProgram, l: UnrolledLoop, i: nat, s: State)
    requires IsUnrolledLoop(p, l) && IsLate(p, l, i) && BeforeFailure(p, l, i, s) && !Failing(p, l, s) && s.pc < l.latch
    ensures var s' := Step(w, p, s);
      s'.status == Running ==>
        BeforeFailure(p, l, i, s') && PassStart(p, l, s') == PassStart(p, l, s) && s'.pc == s.pc + 1
  {
    UnrolledFacts(p, l);
    assert Units(p, l, l.header) == 0;
    assert Units(p, l, s.pc + 1) == Units(p, l, s.pc) + (if IsUnit(p, l, s.pc) then 1 else 0);
    GuardIsNotUnit(p, l, s.pc);
    hide Step;
    hide IsUnrolledLoop;
    hide Guards;
    hide Units;
    hide IsUnit;
    PassGoesOn(p, l, s.pc, Get(s.frame, l.induction));
    hide InPass;
    BodyStep(w, p, l, s);
  }

  lemma LatchProgress(w: World, p: RuntimeProgram, l: UnrolledLoop, i: nat, s: State)
    requires IsUnrolledLoop(p, l) && IsLate(p, l, i) && BeforeFailure(p, l, i, s) && s.pc == l.latch
    ensures var s' := Step(w, p, s);
      s'.status == Running && BeforeFailure(p, l, i, s') && PassStart(p, l, s') > PassStart(p, l, s)
  {
    UnrolledFacts(p, l);
    hide Step;
    LatchStep(w, p, l, s);
    var value := Get(s.frame, l.induction);
    PassGoesBack(p, l, value);
    RoomForStep(l, Guards(p, l, l.latch), PassStart(p, l, s));
    assert Units(p, l, l.header) == 0;
    hide IsUnrolledLoop;
    hide Guards;
    hide Units;
  }

  /** The run stays inside the loop for its first `m` steps, unless it has stopped. */
  ghost predicate StaysInside(w: World, p: RuntimeProgram, l: UnrolledLoop, s: State, m: nat) {
    forall k: nat :: k <= m ==> Run(w, p, s, k).status != Running || Inside(l, Run(w, p, s, k).pc)
  }

  lemma {:induction false} ReachesFailure(w: World, p: RuntimeProgram, l: UnrolledLoop, i: nat, s: State)
      returns (m: nat)
    requires IsUnrolledLoop(p, l) && IsLate(p, l, i) && BeforeFailure(p, l, i, s)
    ensures StaysInside(w, p, l, s, m)
    ensures Run(w, p, s, m).status != Running || Failing(p, l, Run(w, p, s, m))
    decreases l.limit - PassStart(p, l, s), l.latch - s.pc
  {
    if Failing(p, l, s) {
      m := 0;
    } else {
      var s' := Step(w, p, s);
      if s.pc < l.latch {
        BodyProgress(w, p, l, i, s);
      } else {
        LatchProgress(w, p, l, i, s);
      }
      hide Step;
      hide IsUnrolledLoop;
      hide IsLate;
      hide Failing;
      hide PassStart;
      if s'.status != Running {
        m := 1;
        assert Run(w, p, s, 0) == s && Run(w, p, s, 1) == s';
      } else {
        var rest := ReachesFailure(w, p, l, i, s');
        m := rest + 1;
        RunLater(w, p, s, rest);
        InsideLater(w, p, l, s, rest);
      }
    }
  }

  lemma RunLater(w: World, p: RuntimeProgram, s: State, k: nat)
    ensures Run(w, p, s, k + 1) == Run(w, p, Step(w, p, s), k)
  {
    hide Step;
    RunSplit(w, p, s, 1, k);
    assert Run(w, p, s, 0) == s;
    assert Run(w, p, s, 1) == Step(w, p, s);
  }

  lemma InsideLater(w: World, p: RuntimeProgram, l: UnrolledLoop, s: State, m: nat)
    requires StaysInside(w, p, l, Step(w, p, s), m) && Inside(l, s.pc)
    ensures StaysInside(w, p, l, s, m + 1)
  {
    hide Step;
    forall k: nat | k <= m + 1
      ensures Run(w, p, s, k).status != Running || Inside(l, Run(w, p, s, k).pc)
    {
      if k > 0 {
        RunLater(w, p, s, k - 1);
      }
    }
  }

  /** If the later guards are not needless, then from every entry with the start value the run comes to a
      suppressed guard that stops the loop, without leaving the loop before, unless the program stops in the
      body: there the emitted code, which goes on, is wrong. */
  lemma LateGuardFails(w: World, p: RuntimeProgram, l: UnrolledLoop, s: State) returns (m: nat)
    requires IsUnrolledLoop(p, l) && !GuardsNeedless(p, l)
    requires s.status == Running && EnteredWith(l, s)
    ensures StaysInside(w, p, l, s, m)
    ensures Run(w, p, s, m).status != Running || Failing(p, l, Run(w, p, s, m))
  {
    LateIffNotEnd(p, l);
    UnrolledFacts(p, l);
    PassAtEntry(p, l, s);
    var i: nat :| IsLate(p, l, i);
    assert Units(p, l, l.header) == 0;
    hide IsUnrolledLoop;
    hide Guards;
    m := ReachesFailure(w, p, l, i, s);
  }

  /** A guard that stops the loop leaves it, while the emitted code goes on to the next instruction. */
  lemma FailingLeaves(w: World, p: RuntimeProgram, l: UnrolledLoop, s: State)
    requires Failing(p, l, s)
    ensures Step(w, p, s) == s.(pc := l.latch + 1)
  {
    GuardStep(w, p, l, s);
    hide Step;
  }
}
