/** When an unrolled loop is entered right on every run: a condition on the program alone, and its test. */
module UnrollEntry {
  import opened Words
  import opened Ir
  import opened Semantics
  import opened Execution
  import opened Blocks
  import opened Permutations
  import opened SsaNaming
  import opened Ssa
  import opened ExactUnroll
  import opened ExactUnrollCorrectness
  import opened ExactUnrollRuns

  // ----- where control can get to -----

  /** Control gets from one of `seeds` to instruction `j` in `n` steps without executing any of `stop`. */
  ghost predicate Spreads(p: RuntimeProgram, seeds: set<nat>, stop: set<nat>, j: nat, n: nat)
    decreases n, 0
  {
    if n == 0 then j in seeds
    else exists i: nat :: SpreadsBy(p, seeds, stop, i, j, n)
  }

  ghost predicate SpreadsBy(p: RuntimeProgram, seeds: set<nat>, stop: set<nat>, i: nat, j: nat, n: nat)
    requires n > 0
    decreases n - 1, 1
  {
    i < |p.instrs| && i !in stop && StaticNext(p, i, j) && Spreads(p, seeds, stop, i, n - 1)
  }

  ghost predicate ReachedFrom(p: RuntimeProgram, seeds: set<nat>, stop: set<nat>, j: nat) {
    exists n: nat :: Spreads(p, seeds, stop, j, n)
  }

  // ----- collecting where control can get to -----

  ghost predicate AllReached(p: RuntimeProgram, seeds: set<nat>, stop: set<nat>, found: set<nat>) {
    forall j :: j in found ==> j < |p.instrs| && ReachedFrom(p, seeds, stop, j)
  }

  /** What follows the instructions in `found`, up to those in `pending`, is in `found`. */
  ghost predicate ClosedExcept(p: RuntimeProgram, stop: set<nat>, found: set<nat>, pending: set<nat>) {
    forall i: nat, j: nat :: i < |p.instrs| && i in found && i !in pending && i !in stop && StaticNext(p, i, j) ==>
      j in found
  }

  lemma OneStepMore(p: RuntimeProgram, seeds: set<nat>, stop: set<nat>, i: nat, j: nat)
    requires i < |p.instrs| && i !in stop && StaticNext(p, i, j) && ReachedFrom(p, seeds, stop, i)
    ensures ReachedFrom(p, seeds, stop, j)
  {
    hide StaticNext;
    var n: nat :| Spreads(p, seeds, stop, i, n);
    assert SpreadsBy(p, seeds, stop, i, j, n + 1);
    assert Spreads(p, seeds, stop, j, n + 1);
  }

  lemma SeedReached(p: RuntimeProgram, seeds: set<nat>, stop: set<nat>, j: nat)
    requires j in seeds
    ensures ReachedFrom(p, seeds, stop, j)
  {
    assert Spreads(p, seeds, stop, j, 0);
  }

  lemma {:induction false} ClosedHoldsAll(p: RuntimeProgram, seeds: set<nat>, stop: set<nat>, found: set<nat>, j: nat,
      n: nat)
    requires ClosedExcept(p, stop, found, {}) && seeds <= found && Spreads(p, seeds, stop, j, n)
    ensures j in found
    decreases n
  {
    hide StaticNext;
    if n > 0 {
      var i: nat :| SpreadsBy(p, seeds, stop, i, j, n);
      ClosedHoldsAll(p, seeds, stop, found, i, n - 1);
    }
  }

  /** The instructions that follow `i`. */
  method Followers(p: RuntimeProgram, i: nat) returns (r: set<nat>)
    requires i < |p.instrs|
    ensures forall j: nat :: j in r <==> StaticNext(p, i, j)
  {
    r := {};
    for j := 0 to |p.instrs|
      invariant forall k: nat :: k in r <==> k < j && StaticNext(p, i, k)
    {
      hide StaticNext;
      if StaticNext(p, i, j) {
        r := r + {j};
      }
    }
  }

  /** All instructions control can get to from `seeds`, by a worklist. */
  method Collect(p: RuntimeProgram, seeds: set<nat>, stop: set<nat>) returns (found: set<nat>)
    requires forall j :: j in seeds ==> j < |p.instrs|
    ensures forall j: nat :: j in found <==> ReachedFrom(p, seeds, stop, j)
  {
    found := seeds;
    var pending := seeds;
    forall j | j in seeds
      ensures ReachedFrom(p, seeds, stop, j)
    {
      SeedReached(p, seeds, stop, j);
    }
    while pending != {}
      invariant pending <= found && seeds <= found
      invariant AllReached(p, seeds, stop, found) && ClosedExcept(p, stop, found, pending)
      decreases |Nodes(|p.instrs|) - found|, |pending|
    {
      var i :| i in pending;
      var more := {};
      if i !in stop {
        more := Followers(p, i);
      }
      Advance(p, seeds, stop, found, pending, i, more);
      hide AllReached;
      hide ClosedExcept;
      pending := (pending - {i}) + (more - found);
      found := found + more;
    }
    forall j: nat | ReachedFrom(p, seeds, stop, j)
      ensures j in found
    {
      var n: nat :| Spreads(p, seeds, stop, j, n);
      ClosedHoldsAll(p, seeds, stop, found, j, n);
    }
  }

  lemma Advance(p: RuntimeProgram, seeds: set<nat>, stop: set<nat>, found: set<nat>, pending: set<nat>, i: nat,
      more: set<nat>)
    requires i in pending && pending <= found && seeds <= found
    requires AllReached(p, seeds, stop, found) && ClosedExcept(p, stop, found, pending)
    requires i < |p.instrs| && forall j: nat :: j in more <==> i !in stop && StaticNext(p, i, j)
    ensures AllReached(p, seeds, stop, found + more)
    ensures ClosedExcept(p, stop, found + more, (pending - {i}) + (more - found))
    ensures more <= found || |Nodes(|p.instrs|) - (found + more)| < |Nodes(|p.instrs|) - found|
    ensures more <= found ==> found + more == found && (pending - {i}) + (more - found) == pending - {i}
  {
    forall j | j in more
      ensures j < |p.instrs| && ReachedFrom(p, seeds, stop, j)
    {
      OneStepMore(p, seeds, stop, i, j);
    }
    hide StaticNext;
    hide ReachedFrom;
    if !(more <= found) {
      var j :| j in more && j !in found;
      var left := Nodes(|p.instrs|) - found;
      assert Nodes(|p.instrs|) - (found + more) <= left - {j};
      Smaller(Nodes(|p.instrs|) - (found + more), left - {j});
    }
  }

  lemma Smaller(a: set<nat>, b: set<nat>)
    requires a <= b
    ensures |a| <= |b|
  {
    assert b == a + (b - a);
  }

  // ----- loops that every run enters with the start value -----

  /** The instructions that write slot `x`. */
  function Writers(p: RuntimeProgram, x: nat): set<nat> {
    set i: nat | i < |p.instrs| && x in WriteSlots(p.instrs[i])
  }

  /** The move that the plan takes for the definition of the induction slot. */
  function Definition(p: RuntimeProgram, l: UnrolledLoop): nat
    requires l.header <= |p.instrs|
  {
    match LastWrite(p, l.induction, l.header) case Some(d) => d case None => 0
  }

  ghost predicate Executed(p: RuntimeProgram, i: nat) {
    ReachedFrom(p, {0}, {}, i)
  }

  /** Control can come to `i` straight from a write of `x` other than instruction `d`. */
  ghost predicate AfterOther(p: RuntimeProgram, x: nat, d: nat, i: nat) {
    exists k: nat :: k in Writers(p, x) && k != d && k < |p.instrs| && Executed(p, k) && StaticNext(p, k, i)
  }

  /** Where `x` need not hold what instruction `d` wrote: at the entry, and behind the other writes. */
  ghost function Undefining(p: RuntimeProgram, x: nat, d: nat): set<nat> {
    set i: nat | i < |p.instrs| && (i == 0 || AfterOther(p, x, d, i))
  }

  /** On some path of control to instruction `i`, the last write of `x` is not instruction `d`. */
  ghost predicate Undefined(p: RuntimeProgram, x: nat, d: nat, i: nat) {
    ReachedFrom(p, Undefining(p, x, d), Writers(p, x), i)
  }

  /** On every path of control through instruction `i`, the last write of `x` is instruction `d`. */
  ghost predicate DefinedBy(p: RuntimeProgram, x: nat, d: nat, i: nat) {
    if i in Writers(p, x) then i == d else !Undefined(p, x, d, i)
  }

  /** Nothing outside jumps into the middle of the loop. */
  predicate NoSideEntry(p: RuntimeProgram, l: UnrolledLoop) {
    forall i: nat :: i < |p.instrs| && !Inside(l, i) && TargetOf(p.instrs[i]).Some? ==>
      !(l.header < TargetOf(p.instrs[i]).value <= l.latch)
  }

  /** Wherever control enters the header from outside, the induction slot was last written by its
      definition. */
  ghost predicate Initialised(p: RuntimeProgram, l: UnrolledLoop)
    requires l.header <= |p.instrs|
  {
    forall i: nat :: i < |p.instrs| && !Inside(l, i) && Executed(p, i) && StaticNext(p, i, l.header) ==>
      DefinedBy(p, l.induction, Definition(p, l), i)
  }

  /** What a program must satisfy for the plan to be right about the loop. */
  ghost predicate SafeToUnroll(p: RuntimeProgram, l: UnrolledLoop) {
    IsUnrolledLoop(p, l) && GuardsNeedless(p, l) && NoSideEntry(p, l) && l.header <= |p.instrs| && Initialised(p, l)
  }

  // ----- the test of the condition -----

  /** Whether the plan can be trusted with the loop, from the program alone. */
  method CheckUnroll(p: RuntimeProgram, l: UnrolledLoop) returns (ok: bool)
    requires IsUnrolledLoop(p, l)
    ensures ok <==> SafeToUnroll(p, l)
  {
    UnrolledFacts(p, l);
    hide IsUnrolledLoop;
    ok := CheckIncrements(p, l);
    if (ok || l.start == l.limit) && NoSideEntry(p, l) {
      ok := CheckInitialised(p, l);
    } else {
      ok := false;
    }
  }

  method CheckIncrements(p: RuntimeProgram, l: UnrolledLoop) returns (ok: bool)
    requires l.header < l.latch < |p.instrs|
    ensures ok <==> IncrementsEnd(p, l)
  {
    ok := true;
    for i := l.header to l.latch
      invariant ok <==> forall k: nat :: k < i && IsGuard(p, l, k) ==> Units(p, l, k) < Guards(p, l, l.latch)
    {
      hide Units;
      hide Guards;
      ok := ok && (IsGuard(p, l, i) ==> Units(p, l, i) < Guards(p, l, l.latch));
    }
  }

  method CheckInitialised(p: RuntimeProgram, l: UnrolledLoop) returns (ok: bool)
    requires l.header < l.latch < |p.instrs|
    ensures ok <==> Initialised(p, l)
  {
    hide StaticNext;
    hide LastWrite;
    var x, d := l.induction, Definition(p, l);
    var executed := Collect(p, {0}, {});
    var seeds := Seeds(p, x, d, executed);
    var undefined := Collect(p, seeds, Writers(p, x));
    hide ReachedFrom;
    ok := true;
    for i := 0 to |p.instrs|
      invariant ok <==> forall k: nat :: k < i && !Inside(l, k) && Executed(p, k) && StaticNext(p, k, l.header) ==>
        DefinedBy(p, x, d, k)
    {
      var right := if i in Writers(p, x) then i == d else i !in undefined;
      ok := ok && (!Inside(l, i) && i in executed && StaticNext(p, i, l.header) ==> right);
    }
  }

  method Seeds(p: RuntimeProgram, x: nat, d: nat, executed: set<nat>) returns (seeds: set<nat>)
    requires |p.instrs| > 0 && forall i: nat :: i in executed <==> Executed(p, i)
    ensures seeds == Undefining(p, x, d)
  {
    hide Executed;
    hide StaticNext;
    seeds := {0};
    for k := 0 to |p.instrs|
      invariant forall i: nat :: i in seeds <==> i == 0 || BehindOther(p, x, d, i, k)
    {
      if k in Writers(p, x) && k != d && k in executed {
        var next := Followers(p, k);
        seeds := seeds + next;
      }
    }
    forall i: nat | i in seeds
      ensures i < |p.instrs|
    {
      FollowerInside(p, i);
    }
  }

  ghost predicate BehindOther(p: RuntimeProgram, x: nat, d: nat, i: nat, n: nat) {
    exists k: nat :: k < n && k in Writers(p, x) && k != d && k < |p.instrs| && Executed(p, k) && StaticNext(p, k, i)
  }

  lemma FollowerInside(p: RuntimeProgram, i: nat)
    ensures forall k: nat :: k < |p.instrs| && StaticNext(p, k, i) ==> i < |p.instrs|
  {}

  // ----- every run -----

  /** Control is where it can get to, and the slot holds the start value wherever it must. */
  ghost predicate Expects(p: RuntimeProgram, l: UnrolledLoop, s: State)
    requires l.header <= |p.instrs|
  {
    s.status == Running && s.pc < |p.instrs| ==>
      Executed(p, s.pc) && (Undefined(p, l.induction, Definition(p, l), s.pc) || Get(s.frame, l.induction) == l.start)
  }

  lemma DefinitionWrites(w: World, p: RuntimeProgram, l: UnrolledLoop, s: State)
    requires IsUnrolledLoop(p, l) && l.header <= |p.instrs| && s.status == Running && s.pc == Definition(p, l)
    ensures s.pc < |p.instrs| && Get(Step(w, p, s).frame, l.induction) == l.start
    ensures s.pc in Writers(p, l.induction)
  {
    hide BodyFits;
    hide Guards;
    hide Units;
    hide LastWrite;
  }

  /** After a step, the slot holds the start value if its last write is the definition on every path. */
  lemma DefinedStep(w: World, p: RuntimeProgram, l: UnrolledLoop, s: State)
    requires IsUnrolledLoop(p, l) && l.header <= |p.instrs| && Expects(p, l, s)
    requires s.status == Running && s.pc < |p.instrs| && Step(w, p, s).status == Running
    ensures DefinedBy(p, l.induction, Definition(p, l), s.pc) ==> Get(Step(w, p, s).frame, l.induction) == l.start
  {
    var x, d := l.induction, Definition(p, l);
    if s.pc == d {
      DefinitionWrites(w, p, l, s);
    } else if s.pc !in Writers(p, x) {
      StepWrites(w, p, s);
    }
    hide IsUnrolledLoop;
    hide Step;
    hide Executed;
    hide Undefined;
    hide Definition;
  }

  lemma UndefinedStep(p: RuntimeProgram, x: nat, d: nat, i: nat, j: nat)
    requires i < |p.instrs| && StaticNext(p, i, j) && Executed(p, i) && j < |p.instrs|
    ensures Executed(p, j)
    ensures !DefinedBy(p, x, d, i) ==> Undefined(p, x, d, j)
  {
    hide StaticNext;
    OneStepMore(p, {0}, {}, i, j);
    if !DefinedBy(p, x, d, i) {
      if i in Writers(p, x) {
        assert AfterOther(p, x, d, j);
        hide Executed;
        SeedReached(p, Undefining(p, x, d), Writers(p, x), j);
      } else {
        OneStepMore(p, Undefining(p, x, d), Writers(p, x), i, j);
      }
    }
  }

  lemma ExpectsStep(w: World, p: RuntimeProgram, l: UnrolledLoop, s: State)
    requires IsUnrolledLoop(p, l) && l.header <= |p.instrs| && Expects(p, l, s) && StackOfCalls(p, s)
    ensures Expects(p, l, Step(w, p, s))
  {
    var s' := Step(w, p, s);
    if s.status == Running && s'.status == Running && s'.pc < |p.instrs| {
      StepFollows(w, p, s);
      DefinedStep(w, p, l, s);
      hide Step;
      hide StaticNext;
      UndefinedStep(p, l.induction, Definition(p, l), s.pc, s'.pc);
      hide IsUnrolledLoop;
      hide Executed;
      hide Undefined;
      hide DefinedBy;
      hide Definition;
    } else {
      Halted(w, p, s);
      hide Step;
    }
  }

  lemma Halted(w: World, p: RuntimeProgram, s: State)
    ensures s.status != Running ==> Step(w, p, s).status != Running
  {}

  lemma {:induction false} ExpectsOnRun(w: World, p: RuntimeProgram, l: UnrolledLoop, f: Frame, n: nat)
    requires IsUnrolledLoop(p, l) && l.header <= |p.instrs|
    ensures Expects(p, l, Run(w, p, Start(f), n))
  {
    hide Step;
    hide IsUnrolledLoop;
    if n == 0 {
      ExpectsAtStart(p, l, f);
    } else {
      ExpectsOnRun(w, p, l, f, n - 1);
      RunStack(w, p, f, n - 1);
      hide Expects;
      ExpectsStep(w, p, l, Run(w, p, Start(f), n - 1));
    }
  }

  lemma ExpectsAtStart(p: RuntimeProgram, l: UnrolledLoop, f: Frame)
    requires l.header <= |p.instrs|
    ensures Expects(p, l, Start(f))
  {
    hide Definition;
    SeedReached(p, {0}, {}, 0);
    if |p.instrs| > 0 {
      SeedReached(p, Undefining(p, l.induction, Definition(p, l)), Writers(p, l.induction), 0);
    }
  }

  /** Control enters the loop only at its header. */
  lemma EntersHeader(p: RuntimeProgram, l: UnrolledLoop, i: nat, j: nat)
    requires IsUnrolledLoop(p, l) && NoSideEntry(p, l) && i < |p.instrs| && StaticNext(p, i, j)
    requires !Inside(l, i) && Inside(l, j)
    ensures j == l.header
  {
    UnrolledFacts(p, l);
    if j > l.header {
      BodyAt(p, l, j - 1);
    }
    hide IsUnrolledLoop;
    hide Guards;
    hide Units;
    hide WriteSlots;
  }

  /** A safe loop is entered at its header with the start value, on every run. */
  lemma SafeIsEntered(w: World, p: RuntimeProgram, l: UnrolledLoop, f: Frame)
    requires SafeToUnroll(p, l)
    ensures Entered(w, p, f, l)
  {
    UnrolledFacts(p, l);
    forall n: nat
      ensures EntersRight(l, Run(w, p, Start(f), n), Run(w, p, Start(f), n + 1))
    {
      EntersNow(w, p, l, f, n);
    }
    HeaderLater(p, l);
    hide SafeToUnroll;
    hide EntersRight;
  }

  lemma HeaderLater(p: RuntimeProgram, l: UnrolledLoop)
    requires IsUnrolledLoop(p, l)
    ensures l.header > 0
  {
    hide BodyFits;
    hide Guards;
    hide Units;
  }

  lemma EntersNow(w: World, p: RuntimeProgram, l: UnrolledLoop, f: Frame, n: nat)
    requires SafeToUnroll(p, l)
    ensures EntersRight(l, Run(w, p, Start(f), n), Run(w, p, Start(f), n + 1))
  {
    var s := Run(w, p, Start(f), n);
    var s' := Step(w, p, s);
    assert Run(w, p, Start(f), n + 1) == s';
    UnrolledFacts(p, l);
    ExpectsOnRun(w, p, l, f, n);
    RunStack(w, p, f, n);
    StepFollows(w, p, s);
    hide Run;
    hide Step;
    hide StaticNext;
    hide IsUnrolledLoop;
    if s.status == Running && s'.status == Running && !Inside(l, s.pc) && Inside(l, s'.pc) {
      EntersHeader(p, l, s.pc, s'.pc);
      DefinedStep(w, p, l, s);
    }
  }

  /** The plan is right for every set of safe loops: the emitted code shows the same after every number of
      steps, on every run. */
  lemma SafeUnrollingPreservesRuns(w: World, p: RuntimeProgram, loops: set<UnrolledLoop>, plan: UnrollPlan, f: Frame,
      n: nat)
    requires UnrollRight(p, loops, plan) && forall l :: l in loops ==> SafeToUnroll(p, l)
    ensures Obs(UnrolledRun(w, p, plan, f, n)) == Obs(Run(w, p, Start(f), n))
  {
    forall l | l in loops
      ensures IsUnrolledLoop(p, l) && GuardsNeedless(p, l) && Entered(w, p, f, l)
    {
      SafeIsEntered(w, p, l, f);
    }
    hide SafeToUnroll;
    hide UnrollRight;
    hide Run;
    hide UnrolledRun;
    UnrollingPreservesRuns(w, p, loops, plan, f, n);
  }
}
