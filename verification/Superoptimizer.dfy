/** `run_verified_superoptimizer`: replace single instructions by cheaper ones, and the proof that the
    accepted replacements are exact for all 64-bit inputs. */
module Superoptimizer {
  import opened Words
  import opened Ir
  import opened Semantics
  import opened Execution

  // ----- candidates -----

  /** `algebraic_identity_replacement` */
  function AlgebraicIdentityReplacement(op: RuntimeBinOp, lhs: RuntimeOperand,
      rhs: RuntimeOperand): Option<RuntimeOperand>
  {
    if rhs == Imm(0)
      && (op.Add? || op.Sub? || op.BitOr? || op.BitXor? || op.Shl? || op.ShrUnsigned? || op.ShrSigned?) then Some(lhs)
    else if (rhs == Imm(1) && op.Mul?) || (rhs == Imm(MAX) && op.BitAnd?) then Some(lhs)
    else if lhs == Imm(0) && (op.Add? || op.BitOr? || op.BitXor?) then Some(rhs)
    else if (lhs == Imm(1) && op.Mul?) || (lhs == Imm(MAX) && op.BitAnd?) then Some(rhs)
    else if (lhs == Imm(0) || rhs == Imm(0)) && (op.Mul? || op.BitAnd?) then Some(Imm(0))
    else if lhs == rhs && (op.Sub? || op.BitXor?) then Some(Imm(0))
    else if lhs == rhs && (op.BitAnd? || op.BitOr?) then Some(lhs)
    else None
  }

  /** The operation a multiplication or unsigned division by a power of two turns into. */
  function PowerOfTwoForm(op: RuntimeBinOp, constant: u64): Option<(RuntimeBinOp, u64)>
    requires constant > 0
  {
    if !(constant > 1 && IsPowerOfTwo(constant)) then None
    else
      Pow2Exponent(constant);
      match op
      case Mul => Some((Shl, TrailingZeros(constant)))
      case DivUnsigned => Some((ShrUnsigned, TrailingZeros(constant)))
      case ModUnsigned => Some((BitAnd, constant - 1))
      case _ => None
  }

  predicate TrueOnEqual(cmp: RuntimeCmpOp) {
    cmp.Eq? || cmp.LeUnsigned? || cmp.GeUnsigned? || cmp.LeSigned? || cmp.GeSigned?
  }

  /** `synthesize_candidate` */
  function SynthesizeCandidate(i: RuntimeInstr): Option<RuntimeInstr> {
    if i.BinOp? && i.lhs.Imm? && i.rhs.Imm? then
      FoldedTo(i.dst, EvaluateBinop(i.op, i.lhs.imm, i.rhs.imm))
    else if i.BinOp? && i.rhs.Imm? && i.rhs.imm > 0 && PowerOfTwoForm(i.op, i.rhs.imm).Some? then
      var form := PowerOfTwoForm(i.op, i.rhs.imm).value;
      Some(BinOp(i.dst, form.0, i.lhs, Imm(form.1)))
    else if i.BinOp? then MovedFrom(i.dst, AlgebraicIdentityReplacement(i.op, i.lhs, i.rhs))
    else if i.BinOpInPlace? then MovedFrom(i.dst, AlgebraicIdentityReplacement(i.op, Slot(i.dst), i.rhs))
    else if i.Cmp? && i.lhs.Imm? && i.rhs.Imm? then
      Some(Mov(i.dst, Imm(BoolWord(EvaluateCmp(i.cmp, i.lhs.imm, i.rhs.imm)))))
    else if i.Cmp? && i.lhs.Slot? && i.rhs == i.lhs then
      Some(Mov(i.dst, Imm(BoolWord(TrueOnEqual(i.cmp)))))
    else None
  }

  function FoldedTo(dst: nat, v: Option<u64>): Option<RuntimeInstr> {
    match v case Some(x) => Some(Mov(dst, Imm(x))) case None => None
  }

  function MovedFrom(dst: nat, o: Option<RuntimeOperand>): Option<RuntimeInstr> {
    match o case Some(src) => Some(Mov(dst, src)) case None => None
  }

  predicate Commutative(op: RuntimeBinOp) {
    op.Add? || op.Mul? || op.BitAnd? || op.BitOr? || op.BitXor?
  }

  /** `enumerate_candidates` */
  function EnumerateCandidates(i: RuntimeInstr): seq<RuntimeInstr> {
    (match SynthesizeCandidate(i) case Some(c) => [c] case None => []) +
    (if i.BinOp? && i.lhs.Imm? && i.rhs.Slot? && Commutative(i.op) then [BinOp(i.dst, i.op, i.rhs, i.lhs)] else [])
  }

  /** `has_exact_rewrite_proof` */
  predicate HasExactRewriteProof(i: RuntimeInstr, c: RuntimeInstr) {
    if i.BinOp? && c.Mov? then
      && i.dst == c.dst
      && if i.lhs.Imm? && i.rhs.Imm? && c.src.Imm? then EvaluateBinop(i.op, i.lhs.imm, i.rhs.imm) == Some(c.src.imm)
         else AlgebraicIdentityReplacement(i.op, i.lhs, i.rhs) == Some(c.src)
    else if i.Cmp? && c.Mov? then
      && i.dst == c.dst && c.src.Imm?
      && if i.lhs.Imm? && i.rhs.Imm? then c.src.imm == BoolWord(EvaluateCmp(i.cmp, i.lhs.imm, i.rhs.imm))
         else i.lhs.Slot? && i.rhs == i.lhs && c.src.imm == BoolWord(TrueOnEqual(i.cmp))
    else if i.BinOpInPlace? && c.Mov? then
      i.dst == c.dst && AlgebraicIdentityReplacement(i.op, Slot(i.dst), i.rhs) == Some(c.src)
    else if i.BinOp? && c.BinOp? && (i.op.Mul? || i.op.DivUnsigned? || i.op.ModUnsigned?) && i.rhs.Imm? then
      && i.dst == c.dst && i.lhs == c.lhs
      && i.rhs.imm > 0 && c.rhs.Imm? && PowerOfTwoForm(i.op, i.rhs.imm) == Some((c.op, c.rhs.imm))
    else if i.BinOp? && c.BinOp? then
      i.dst == c.dst && i.op == c.op && Commutative(i.op) && i.lhs == c.rhs && i.rhs == c.lhs
    else false
  }

  // ----- exactness -----

  lemma IdentityExact(op: RuntimeBinOp, lhs: RuntimeOperand, rhs: RuntimeOperand, f: Frame)
    requires AlgebraicIdentityReplacement(op, lhs, rhs).Some?
    ensures EvaluateBinop(op, Eval(lhs, f), Eval(rhs, f))
      == Some(Eval(AlgebraicIdentityReplacement(op, lhs, rhs).value, f))
  {
    hide EvaluateBinop;
    RightIdentities(op, Eval(lhs, f), Eval(rhs, f));
    LeftIdentities(op, Eval(lhs, f), Eval(rhs, f));
    EqualOperands(op, Eval(lhs, f));
  }

  lemma RightIdentities(op: RuntimeBinOp, a: u64, b: u64)
    ensures b == 0 && (op.Add? || op.Sub? || op.BitOr? || op.BitXor? || op.Shl? || op.ShrUnsigned? || op.ShrSigned?) ==>
      EvaluateBinop(op, a, b) == Some(a)
    ensures (b == 1 && op.Mul?) || (b == MAX && op.BitAnd?) ==> EvaluateBinop(op, a, b) == Some(a)
    ensures b == 0 && (op.Mul? || op.BitAnd?) ==> EvaluateBinop(op, a, b) == Some(0)
  {
    if op.Shl? || op.ShrUnsigned? || op.ShrSigned? {
      ShiftByZero(op, a);
    } else if op.BitAnd? {
      AndMax(a);
    }
    hide SignedDivision;
    hide ShiftLeft;
    hide ShiftRight;
    hide ShiftRightSigned;
  }

  lemma ShiftByZero(op: RuntimeBinOp, a: u64)
    requires op.Shl? || op.ShrUnsigned? || op.ShrSigned?
    ensures EvaluateBinop(op, a, 0) == Some(a)
  {
    assert ShiftAmount(0) == 0;
  }

  lemma LeftIdentities(op: RuntimeBinOp, a: u64, b: u64)
    ensures a == 0 && (op.Add? || op.BitOr? || op.BitXor?) ==> EvaluateBinop(op, a, b) == Some(b)
    ensures (a == 1 && op.Mul?) || (a == MAX && op.BitAnd?) ==> EvaluateBinop(op, a, b) == Some(b)
    ensures a == 0 && (op.Mul? || op.BitAnd?) ==> EvaluateBinop(op, a, b) == Some(0)
  {
    if Commutative(op) {
      CommutedExact(op, a, b);
      RightIdentities(op, b, a);
    }
  }

  lemma EqualOperands(op: RuntimeBinOp, a: u64)
    ensures op.Sub? || op.BitXor? ==> EvaluateBinop(op, a, a) == Some(0)
    ensures op.BitAnd? || op.BitOr? ==> EvaluateBinop(op, a, a) == Some(a)
  {
    hide SignedDivision;
    AndOrXorSame(a);
  }

  lemma PowerOfTwoExact(op: RuntimeBinOp, a: u64, constant: u64)
    requires constant > 0 && PowerOfTwoForm(op, constant).Some?
    ensures EvaluateBinop(op, a, constant) ==
      EvaluateBinop(PowerOfTwoForm(op, constant).value.0, a, PowerOfTwoForm(op, constant).value.1)
  {
    var k := TrailingZeros(constant);
    Pow2Exponent(constant);
    UpMultiplies(a, k);
    DownLowDivide(a, k);
    AndMask(a, k);
    assert ShiftAmount(k) == k;
  }

  lemma CommutedExact(op: RuntimeBinOp, a: u64, b: u64)
    requires Commutative(op)
    ensures EvaluateBinop(op, a, b) == EvaluateBinop(op, b, a)
  {
    AndCommutes(a, b);
    OrCommutes(a, b);
    XorCommutes(a, b);
    assert a * b == b * a;
  }

  /** An accepted replacement computes the same value, or traps, on every frame. */
  lemma RewriteExact(i: RuntimeInstr, c: RuntimeInstr, f: Frame)
    requires HasExactRewriteProof(i, c)
    ensures IsScalar(i) && IsScalar(c) && !i.NormalizeInt? && !c.NormalizeInt? && i.dst == c.dst
    ensures ScalarValue(c, f) == ScalarValue(i, f)
  {
    hide EvaluateBinop;
    if i.BinOp? && c.Mov? {
      if !(i.lhs.Imm? && i.rhs.Imm? && c.src.Imm?) {
        IdentityExact(i.op, i.lhs, i.rhs, f);
      }
    } else if i.BinOpInPlace? {
      IdentityExact(i.op, Slot(i.dst), i.rhs, f);
    } else if i.BinOp? && (i.op.Mul? || i.op.DivUnsigned? || i.op.ModUnsigned?) && i.rhs.Imm? {
      PowerOfTwoExact(i.op, Eval(i.lhs, f), i.rhs.imm);
    } else if i.BinOp? {
      CommutedExact(i.op, Eval(i.lhs, f), Eval(i.rhs, f));
    }
  }

  lemma RewriteSameEffect(w: World, i: RuntimeInstr, c: RuntimeInstr, f: Frame, t: Trace)
    requires HasExactRewriteProof(i, c)
    ensures !IsControl(i) && !IsControl(c) && Exec(w, c, f, t) == Exec(w, i, f, t)
  {
    RewriteExact(i, c, f);
    ExecScalar(w, i, f, t);
    ExecScalar(w, c, f, t);
    hide HasExactRewriteProof;
    hide Exec;
    hide ScalarValue;
  }

  /** Every enumerated candidate has a proof. */
  lemma EnumeratedHasProof(i: RuntimeInstr, c: RuntimeInstr)
    requires c in EnumerateCandidates(i)
    ensures HasExactRewriteProof(i, c)
  {
    hide EvaluateBinop;
    hide EvaluateCmp;
  }

  // ----- the corpus test -----

  const CORPUS: seq<u64> := [0, 1, 2, 3, 7, 31, 0xFFFF_FFFF, 0x1_0000_0000, 0x7FFF_FFFF_FFFF_FFFF, SIGN, MAX - 1, MAX]

  type Environment = map<nat, u64>

  function Lookup(o: RuntimeOperand, e: Environment): Option<u64> {
    match o
    case Imm(v) => Some(v)
    case Slot(s) => if s in e then Some(e[s]) else None
  }

  /** `evaluate_pure_instruction` */
  function EvaluatePureInstruction(i: RuntimeInstr, e: Environment): Option<(nat, u64)> {
    match i
    case Mov(dst, src) => (match Lookup(src, e) case Some(v) => Some((dst, v)) case None => None)
    case BinOp(dst, op, lhs, rhs) => PureBinop(dst, op, Lookup(lhs, e), Lookup(rhs, e))
    case BinOpInPlace(dst, op, rhs) => PureBinop(dst, op, Lookup(Slot(dst), e), Lookup(rhs, e))
    case Cmp(dst, cmp, lhs, rhs) =>
      (match (Lookup(lhs, e), Lookup(rhs, e))
       case (Some(a), Some(b)) => Some((dst, BoolWord(EvaluateCmp(cmp, a, b))))
       case _ => None)
    case _ => None
  }

  function PureBinop(dst: nat, op: RuntimeBinOp, a: Option<u64>, b: Option<u64>): Option<(nat, u64)> {
    if a.None? || b.None? then None
    else match EvaluateBinop(op, a.value, b.value) case Some(v) => Some((dst, v)) case None => None
  }

  predicate Binds(e: Environment, slots: seq<nat>) {
    forall x :: x in slots ==> x in e
  }

  lemma PureMeansScalar(i: RuntimeInstr, e: Environment)
    requires IsScalar(i) && !i.NormalizeInt? && Binds(e, ReadSlots(i))
    ensures EvaluatePureInstruction(i, e) ==
      match ScalarValue(i, e) case Some(v) => Some((i.dst, v)) case None => None
  {
    hide EvaluateBinop;
    hide EvaluateCmp;
    forall o | o in Operands(i)
      ensures Lookup(o, e) == Some(Eval(o, e))
    {
      assert o.Slot? ==> o.slot in ReadSlots(i);
    }
    match i
    case Mov(_, src) => assert src in Operands(i);
    case BinOp(_, _, lhs, rhs) => assert lhs in Operands(i) && rhs in Operands(i);
    case Cmp(_, _, lhs, rhs) => assert lhs in Operands(i) && rhs in Operands(i);
    case BinOpInPlace(dst, _, rhs) => assert rhs in Operands(i) && dst in ReadSlots(i);
  }

  method VerifyCandidate(i: RuntimeInstr, c: RuntimeInstr) returns (ok: bool)
    ensures ok <==> HasExactRewriteProof(i, c)
  {
    if !HasExactRewriteProof(i, c) {
      return false;
    }
    RewriteExact(i, c, map[]);
    var slots := Dedup(ReadSlots(i) + ReadSlots(c));
    FewSlots(i, c, slots);
    if |slots| > 2 {
      return false;
    }
    var environments: seq<Environment> := [map[]];
    for k := 0 to |slots|
      invariant forall n :: 0 <= n < |environments| ==> Binds(environments[n], slots[..k])
    {
      var expanded: seq<Environment> := [];
      for n := 0 to |environments|
        invariant forall m :: 0 <= m < |expanded| ==> Binds(expanded[m], slots[..k + 1])
      {
        for v := 0 to |CORPUS|
          invariant forall m :: 0 <= m < |expanded| ==> Binds(expanded[m], slots[..k + 1])
        {
          var next := environments[n][slots[k] := CORPUS[v]];
          assert slots[..k + 1] == slots[..k] + [slots[k]];
          expanded := expanded + [next];
        }
      }
      environments := expanded;
    }
    assert slots[..|slots|] == slots;
    for n := 0 to |environments| {
      PureMeansScalar(i, environments[n]);
      PureMeansScalar(c, environments[n]);
      RewriteExact(i, c, environments[n]);
      if EvaluatePureInstruction(i, environments[n]) != EvaluatePureInstruction(c, environments[n]) {
        return false;
      }
    }
    return true;
  }

  method Dedup(s: seq<nat>) returns (r: seq<nat>)
    ensures forall x :: x in r <==> x in s
    ensures forall j, k :: 0 <= j < k < |r| ==> r[j] != r[k]
  {
    r := [];
    for k := 0 to |s|
      invariant forall x :: x in r <==> x in s[..k]
      invariant forall j, k :: 0 <= j < k < |r| ==> r[j] != r[k]
    {
      if s[k] !in r {
        r := r + [s[k]];
      }
      assert s[..k + 1] == s[..k] + [s[k]];
    }
    assert s[..|s|] == s;
  }

  /** A rewrite with a proof touches at most two slots. */
  lemma FewSlots(i: RuntimeInstr, c: RuntimeInstr, slots: seq<nat>)
    requires HasExactRewriteProof(i, c)
    requires forall x :: x in slots <==> x in ReadSlots(i) + ReadSlots(c)
    requires forall j, k :: 0 <= j < k < |slots| ==> slots[j] != slots[k]
    ensures |slots| <= 2
  {
    var x, y, z := At(slots, 0), At(slots, 1), At(slots, 2);
    var a := if i.BinOpInPlace? then Slot(i.dst) else i.lhs;
    forall x | x in slots
      ensures Slot(x) == a || Slot(x) == i.rhs
    {
      OwnOperands(i, c, x);
    }
    hide HasExactRewriteProof;
    assert |slots| > 2 ==> x in slots && y in slots && z in slots;
  }

  function At(s: seq<nat>, k: nat): nat {
    if k < |s| then s[k] else 0
  }

  lemma OwnOperands(i: RuntimeInstr, c: RuntimeInstr, x: nat)
    requires HasExactRewriteProof(i, c) && (x in ReadSlots(i) || x in ReadSlots(c))
    ensures i.BinOp? || i.Cmp? || i.BinOpInPlace?
    ensures Slot(x) == (if i.BinOpInPlace? then Slot(i.dst) else i.lhs) || Slot(x) == i.rhs
  {
    hide EvaluateBinop;
    hide EvaluateCmp;
    assert Slot(x) in Operands(i) || Slot(x) in Operands(c) || x in DirectReads(i);
  }

  // ----- the pass -----

  /** `fusion_sensitive` */
  predicate FusionSensitive(code: seq<RuntimeInstr>, index: nat) {
    && index < |code| && code[index].BinOp? && code[index].op.Shl?
    && index + 1 < |code| && code[index + 1].BinOp? && code[index + 1].op.BitOr?
  }

  /** `c` is the cheapest proved candidate for `i` that costs no more than `i`; `rank` breaks ties. */
  ghost predicate Best(i: RuntimeInstr, c: RuntimeInstr, cost: RuntimeInstr -> nat, rank: RuntimeInstr -> nat) {
    && c in EnumerateCandidates(i) && cost(c) <= cost(i)
    && forall d :: d in EnumerateCandidates(i) && cost(d) <= cost(i) ==> !Cheaper(d, c, cost, rank)
  }

  predicate Cheaper(d: RuntimeInstr, c: RuntimeInstr, cost: RuntimeInstr -> nat, rank: RuntimeInstr -> nat) {
    cost(d) < cost(c) || (cost(d) == cost(c) && rank(d) < rank(c))
  }

  /** What the pass leaves at each place. */
  ghost predicate Improved(code: seq<RuntimeInstr>, k: nat, c: RuntimeInstr, cost: RuntimeInstr -> nat,
      rank: RuntimeInstr -> nat)
    requires k < |code|
  {
    if FusionSensitive(code, k)
      || (forall d :: d in EnumerateCandidates(code[k]) ==> cost(d) > cost(code[k])) then c == code[k]
    else Best(code[k], c, cost, rank)
  }

  ghost predicate Superoptimized(p: RuntimeProgram, q: RuntimeProgram, cost: RuntimeInstr -> nat,
      rank: RuntimeInstr -> nat)
  {
    && q.slots == p.slots && |q.instrs| == |p.instrs|
    && forall k :: 0 <= k < |p.instrs| ==> Improved(p.instrs, k, q.instrs[k], cost, rank)
  }

  method RunVerifiedSuperoptimizer(p: RuntimeProgram, cost: RuntimeInstr -> nat, rank: RuntimeInstr -> nat)
      returns (q: RuntimeProgram)
    ensures Superoptimized(p, q, cost, rank)
  {
    var code: seq<RuntimeInstr> := p.instrs;
    for index := 0 to |p.instrs|
      invariant |code| == |p.instrs|
      invariant forall k :: index <= k < |code| ==> code[k] == p.instrs[k]
      invariant forall k :: 0 <= k < index ==> Improved(p.instrs, k, code[k], cost, rank)
    {
      if !FusionSensitive(p.instrs, index) {
        var best := PickBest(p.instrs[index], cost, rank);
        if best.Some? {
          code := code[index := best.value];
        }
      }
    }
    q := RuntimeProgram(p.slots, code);
  }

  method PickBest(i: RuntimeInstr, cost: RuntimeInstr -> nat, rank: RuntimeInstr -> nat)
      returns (best: Option<RuntimeInstr>)
    ensures match best
      case None => forall d :: d in EnumerateCandidates(i) ==> cost(d) > cost(i)
      case Some(c) => Best(i, c, cost, rank)
  {
    hide SynthesizeCandidate;
    hide HasExactRewriteProof;
    var candidates := EnumerateCandidates(i);
    best := None;
    for k := 0 to |candidates|
      invariant best.None? ==> forall n :: 0 <= n < k ==> cost(candidates[n]) > cost(i)
      invariant best.Some? ==> best.value in candidates && cost(best.value) <= cost(i)
      invariant best.Some? ==> forall n :: 0 <= n < k && cost(candidates[n]) <= cost(i) ==>
        !Cheaper(candidates[n], best.value, cost, rank)
    {
      var candidate := candidates[k];
      var ok := VerifyCandidate(i, candidate);
      EnumeratedHasProof(i, candidate);
      if ok && cost(candidate) <= cost(i) && (best.None? || Cheaper(candidate, best.value, cost, rank)) {
        best := Some(candidate);
      }
    }
  }

  // ----- behaviour -----

  lemma ImprovedStep(w: World, p: RuntimeProgram, q: RuntimeProgram, cost: RuntimeInstr -> nat,
      rank: RuntimeInstr -> nat, s: State)
    requires Superoptimized(p, q, cost, rank)
    ensures Step(w, q, s) == Step(w, p, s)
  {
    hide Exec;
    hide EnumerateCandidates;
    if s.status == Running && s.pc < |p.instrs| {
      var i, c := p.instrs[s.pc], q.instrs[s.pc];
      assert Improved(p.instrs, s.pc, c, cost, rank);
      if c != i {
        EnumeratedHasProof(i, c);
        RewriteSameEffect(w, i, c, s.frame, s.trace);
      }
    }
  }

  lemma {:induction false} ImprovedRun(w: World, p: RuntimeProgram, q: RuntimeProgram, cost: RuntimeInstr -> nat,
      rank: RuntimeInstr -> nat, f: Frame, n: nat)
    requires Superoptimized(p, q, cost, rank)
    ensures Run(w, q, Start(f), n) == Run(w, p, Start(f), n)
  {
    hide Step;
    hide Superoptimized;
    if n > 0 {
      ImprovedRun(w, p, q, cost, rank, f, n - 1);
      ImprovedStep(w, p, q, cost, rank, Run(w, p, Start(f), n - 1));
    }
  }

  lemma SuperoptimizerPreservesBehaviour(p: RuntimeProgram, q: RuntimeProgram, cost: RuntimeInstr -> nat,
      rank: RuntimeInstr -> nat)
    requires Superoptimized(p, q, cost, rank)
    ensures SameBehaviour(p, q)
  {
    hide Run;
    hide Superoptimized;
    forall w: World, f: Frame, n: nat
      ensures Matched(w, q, f, Obs(Run(w, p, Start(f), n))) && Matched(w, p, f, Obs(Run(w, q, Start(f), n)))
    {
      ImprovedRun(w, p, q, cost, rank, f, n);
    }
  }
}
