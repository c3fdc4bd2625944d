/** What the affine fusions compute, on one group of instructions and on whole runs. */
module FusionCorrectness {
  import opened Words
  import opened Ir
  import opened Semantics
  import opened Execution
  import opened Blocks
  import opened Fusion

  // ----- straight-line scalar code -----

  predicate NeverTraps(i: RuntimeInstr) {
    match i
    case Mov(_, _) => true
    case Cmp(_, _, _, _) => true
    case NormalizeInt(_, _, _) => true
    case BinOp(_, op, _, _) => op.Add? || op.Sub? || op.Mul? || op.BitAnd? || op.BitOr? || op.BitXor?
    case BinOpInPlace(_, op, _) => op.Add? || op.Sub? || op.Mul? || op.BitAnd? || op.BitOr? || op.BitXor?
    case _ => false
  }

  function Apply(i: RuntimeInstr, f: Frame): Frame
    requires NeverTraps(i)
  {
    f[i.dst := ScalarValue(i, f).value]
  }

  predicate IsStraight(p: RuntimeProgram, i: nat, k: nat) {
    i + k <= |p.instrs| && forall j :: i <= j < i + k ==> NeverTraps(p.instrs[j])
  }

  /** The slots after the `k` instructions from `i`. */
  function Straight(p: RuntimeProgram, i: nat, f: Frame, k: nat): Frame
    requires IsStraight(p, i, k)
  {
    if k == 0 then f else Apply(p.instrs[i + k - 1], Straight(p, i, f, k - 1))
  }

  lemma ApplyStep(w: World, p: RuntimeProgram, s: State)
    requires s.status == Running && s.pc < |p.instrs| && NeverTraps(p.instrs[s.pc])
    ensures Step(w, p, s) == s.(pc := s.pc + 1, frame := Apply(p.instrs[s.pc], s.frame))
  {
    ExecScalar(w, p.instrs[s.pc], s.frame, s.trace);
    hide Exec;
    hide EvaluateCmp;
    hide Normalize;
  }

  lemma {:induction false} StraightRun(w: World, p: RuntimeProgram, s: State, k: nat)
    requires s.status == Running && IsStraight(p, s.pc, k)
    ensures Run(w, p, s, k) == s.(pc := s.pc + k, frame := Straight(p, s.pc, s.frame, k))
  {
    hide Step;
    hide Apply;
    if k > 0 {
      StraightRun(w, p, s, k - 1);
      ApplyStep(w, p, Run(w, p, s, k - 1));
    }
  }

  // ----- multiply-add on 32 bits -----

  const TWO32: int := 0x1_0000_0000

  /** The one value the fused instructions compute: a 32-bit multiplication and a 32-bit addition. */
  function U32Value(r: U32Affine, f: Frame): u64 {
    ((Eval(r.lhs, f) % TWO32) * r.mul % TWO32 + r.add) % TWO32
  }

  function U32Frame(r: U32Affine, f: Frame): Frame {
    var g := f[r.narrowed_slot := U32Value(r, f)];
    if r.state_slot.Some? then g[r.state_slot.value := U32Value(r, f)] else g
  }

  lemma ModOfMod(x: nat)
    ensures (x % WORD) % TWO32 == x % TWO32
  {
    var q, r := x / WORD, x % WORD;
    assert x == (q * TWO32) * TWO32 + r;
    ModDrop(q * TWO32, r);
  }

  lemma ModDrop(q: nat, r: nat)
    ensures (q * TWO32 + r) % TWO32 == r % TWO32
  {
    DivDivide(r, TWO32);
    DivUnique(q * TWO32 + r, TWO32, q + r / TWO32, r % TWO32);
  }

  /** Only the low 32 bits of the factors matter for the low 32 bits of the product. */
  lemma ModProduct(x: nat, m: nat)
    ensures (x * m) % TWO32 == ((x % TWO32) * (m % TWO32)) % TWO32
  {
    var a, b, c, d := x / TWO32, x % TWO32, m / TWO32, m % TWO32;
    assert x == a * TWO32 + b && m == c * TWO32 + d;
    ProductParts(a, b, c, d);
    ModDrop(a * m + b * c, b * d);
  }

  lemma ProductParts(a: nat, b: nat, c: nat, d: nat)
    ensures (a * TWO32 + b) * (c * TWO32 + d) == (a * (c * TWO32 + d) + b * c) * TWO32 + b * d
  {}

  lemma ModSum(x: nat, y: nat)
    ensures (x + y) % TWO32 == (x % TWO32 + y % TWO32) % TWO32
  {
    ModDrop(x / TWO32 + y / TWO32, x % TWO32 + y % TWO32);
  }

  lemma AndLow32(v: u64)
    ensures And(v, LOW32) == v % TWO32
  {
    Pow2Word();
    hide Pow2;
    hide And;
    AndMask(v, 32);
    DownLowDivide(v, 32);
  }

  lemma WideSum(product: nat, add: u64)
    ensures ((product % WORD + add) % WORD) % TWO32 == (product % TWO32 + add % TWO32) % TWO32
  {
    ModOfMod(product % WORD + add);
    ModSum(product % WORD, add);
    ModOfMod(product);
  }

  /** The masked 64-bit multiply-add is the 32-bit multiply-add, for all inputs. */
  lemma AffineNarrows(x: u64, mul: u64, add: u64)
    ensures And(((x * mul) % WORD + add) % WORD, LOW32) == ((x % TWO32) * (mul % TWO32) % TWO32 + add % TWO32) % TWO32
  {
    ModProduct(x, mul);
    NarrowSum(x * mul, add);
    hide And;
  }

  lemma NarrowSum(product: nat, add: u64)
    ensures And((product % WORD + add) % WORD, LOW32) == (product % TWO32 + add % TWO32) % TWO32
  {
    AndLow32((product % WORD + add) % WORD);
    hide And;
    WideSum(product, add);
  }

  lemma StraightFirst(p: RuntimeProgram, i: nat, f: Frame, k: nat)
    requires IsStraight(p, i, k + 1)
    ensures IsStraight(p, i, k) && Straight(p, i, f, k + 1) == Apply(p.instrs[i + k], Straight(p, i, f, k))
  {}

  /** Apart from its two temporaries, the fused group leaves every slot as the original group does. */
  lemma U32Group(p: RuntimeProgram, i: nat, t: nat, u: nat, r: U32Affine, f: Frame)
    requires IsU32Affine(p, i, t, u, r) && U32Distinct(t, u, r)
    ensures IsStraight(p, i, r.consumed)
    ensures forall x :: x != t && x != u ==> Get(Straight(p, i, f, r.consumed), x) == Get(U32Frame(r, f), x)
  {
    hide Straight;
    hide And;
    var x, mul, add := Eval(r.lhs, f), p.instrs[i].rhs.imm, p.instrs[i + 1].rhs.imm;
    var product, sum := (x * mul) % WORD, ((x * mul) % WORD + add) % WORD;
    assert U32Value(r, f) == And(sum, LOW32) by {
      AffineNarrows(x, mul, add);
    }
    hide U32Value;
    assert IsStraight(p, i, r.consumed);
    StraightStart(p, i, f);
    BinopStep(p, i, 0, f);
    var f1 := f[t := product];
    assert Straight(p, i, f, 1) == f1;
    BinopStep(p, i, 1, f);
    var f2 := f1[u := sum];
    assert Straight(p, i, f, 2) == f2;
    BinopStep(p, i, 2, f);
    var f3 := f2[r.narrowed_slot := And(sum, LOW32)];
    assert Straight(p, i, f, 3) == f3;
    if r.state_slot.Some? {
      StraightFirst(p, i, f, 3);
      assert Straight(p, i, f, 4) == f3[r.state_slot.value := And(sum, LOW32)];
    }
  }

  lemma StraightStart(p: RuntimeProgram, i: nat, f: Frame)
    requires IsStraight(p, i, 0)
    ensures Straight(p, i, f, 0) == f
  {}

  lemma BinopStep(p: RuntimeProgram, i: nat, k: nat, f: Frame)
    requires IsStraight(p, i, k + 1) && p.instrs[i + k].BinOp?
    ensures IsStraight(p, i, k)
    ensures
      var instr, before := p.instrs[i + k], Straight(p, i, f, k);
      EvaluateBinop(instr.op, Eval(instr.lhs, before), Eval(instr.rhs, before)).Some? &&
      Straight(p, i, f, k + 1)
        == before[instr.dst := EvaluateBinop(instr.op, Eval(instr.lhs, before), Eval(instr.rhs, before)).value]
  {
    StraightFirst(p, i, f, k);
  }

  // ----- selection with a mask -----

  /** The multiplier and the summand of the branch that the comparison selects. */
  function Chosen(r: AffineSelect, f: Frame): (u64, u64) {
    if EvaluateCmp(r.cmp, Eval(r.cmp_lhs, f), Eval(r.cmp_rhs, f))
      then (r.then_mul, r.then_add) else (r.else_mul, r.else_add)
  }

  function SelectFrame(r: AffineSelect, f: Frame): Frame {
    var (mul, add) := Chosen(r, f);
    f[r.state_slot := And(((Get(f, r.state_slot) * mul) % WORD + add) % WORD, r.mask)]
  }

  /** Masking with all ones or with nothing, then flipping, picks one of two constants. */
  lemma MaskSelects(b: bool, delta: u64, other: u64)
    ensures var mask := (0 - BoolWord(b)) % WORD;
      Xor64(And(mask, delta), other) == if b then Xor64(other, delta) else other
  {
    hide And;
    hide Xor;
    hide Xor64;
    hide Pow2;
    AndMax(delta);
    XorCommutes(delta, other);
    ZeroAbsorbs(delta, other);
  }

  lemma ZeroAbsorbs(a: nat, b: nat)
    ensures And(0, a) == 0 && Xor(0, b) == b
  {}

  /** The slots after the first two, four, five and seven instructions of the pattern. */
  lemma SelectPrefix(p: RuntimeProgram, i: nat, s: SelectParts, r: AffineSelect, f: Frame)
    requires IsAffineSelect(p, i, s, r)
    ensures IsStraight(p, i, r.consumed)
    ensures
      var mask: u64 := (0 - BoolWord(EvaluateCmp(r.cmp, Eval(r.cmp_lhs, f), Eval(r.cmp_rhs, f)))) % WORD;
      Get(Straight(p, i, f, 2), s.mask) == mask
      && forall x :: x != s.cond && x != s.mask ==> Get(Straight(p, i, f, 2), x) == Get(f, x)
  {
    hide EvaluateCmp;
    SelectStraight(p, i, s, r);
    hide NeverTraps;
    hide IsStraight;
    CompareThenNegate(p, i, s.cond, s.mask, r.cmp, r.cmp_lhs, r.cmp_rhs, f);
  }

  lemma SelectStraight(p: RuntimeProgram, i: nat, s: SelectParts, r: AffineSelect)
    requires IsAffineSelect(p, i, s, r)
    ensures IsStraight(p, i, r.consumed) && IsStraight(p, i, 2)
  {}

  /** Two instructions that turn a comparison into a mask. */
  lemma CompareThenNegate(p: RuntimeProgram, i: nat, cond: nat, mask_slot: nat, cmp: RuntimeCmpOp,
      lhs: RuntimeOperand, rhs: RuntimeOperand, f: Frame)
    requires IsStraight(p, i, 2) && i + 1 < |p.instrs|
    requires p.instrs[i] == Cmp(cond, cmp, lhs, rhs) && p.instrs[i + 1] == BinOp(mask_slot, Sub, Imm(0), Slot(cond))
    ensures
      Get(Straight(p, i, f, 2), mask_slot) == (0 - BoolWord(EvaluateCmp(cmp, Eval(lhs, f), Eval(rhs, f)))) % WORD
      && forall x :: x != cond && x != mask_slot ==> Get(Straight(p, i, f, 2), x) == Get(f, x)
  {
    hide EvaluateCmp;
    StraightFirst(p, i, f, 0);
    StraightFirst(p, i, f, 1);
  }

  /** Two instructions that compute a coefficient from the mask. */
  lemma CoefficientPair(p: RuntimeProgram, i: nat, from: nat, f: Frame, mask_slot: nat, coefficient: nat, delta: u64,
      other: u64)
    requires IsStraight(p, i, from + 2)
    requires p.instrs[i + from] == BinOp(coefficient, BitAnd, Slot(mask_slot), Imm(delta))
    requires p.instrs[i + from + 1] == BinOpInPlace(coefficient, BitXor, Imm(other))
    ensures IsStraight(p, i, from)
    ensures
      var before, after := Straight(p, i, f, from), Straight(p, i, f, from + 2);
      Get(after, coefficient) == Xor64(And(Get(before, mask_slot), delta), other)
      && forall x :: x != coefficient ==> Get(after, x) == Get(before, x)
  {
    hide And;
    StraightFirst(p, i, f, from);
    StraightFirst(p, i, f, from + 1);
  }

  lemma UpdateOne(p: RuntimeProgram, i: nat, k: nat, f: Frame)
    requires IsStraight(p, i, k + 1) && p.instrs[i + k].BinOpInPlace?
      && (p.instrs[i + k].op.Mul? || p.instrs[i + k].op.Add? || p.instrs[i + k].op.BitAnd?)
    ensures IsStraight(p, i, k)
    ensures
      var instr, before, after := p.instrs[i + k], Straight(p, i, f, k), Straight(p, i, f, k + 1);
      Get(after, instr.dst) == EvaluateBinop(instr.op, Get(before, instr.dst), Eval(instr.rhs, before)).value
      && forall x :: x != instr.dst ==> Get(after, x) == Get(before, x)
  {
    StraightFirst(p, i, f, k);
  }

  /** The state after a selection whose temporaries are distinct: mask and coefficient, and the state. */
  lemma SelectUpdates(p: RuntimeProgram, i: nat, s: SelectParts, r: AffineSelect, f: Frame)
    requires IsAffineSelect(p, i, s, r) && r.state_slot !in {s.cond, s.mask, s.coefficient}
    ensures IsStraight(p, i, r.consumed)
    ensures
      var taken := EvaluateCmp(r.cmp, Eval(r.cmp_lhs, f), Eval(r.cmp_rhs, f));
      var mul := if taken then r.then_mul else r.else_mul;
      var add := Get(Straight(p, i, f, 7), s.coefficient);
      Get(Straight(p, i, f, 8), r.state_slot) == ((Get(f, r.state_slot) * mul) % WORD + add) % WORD
  {
    hide Straight;
    hide EvaluateCmp;
    hide And;
    hide Xor64;
    SelectPrefix(p, i, s, r, f);
    CoefficientPair(p, i, 2, f, s.mask, s.coefficient, s.mul_delta, r.else_mul);
    MaskSelects(EvaluateCmp(r.cmp, Eval(r.cmp_lhs, f), Eval(r.cmp_rhs, f)), s.mul_delta, r.else_mul);
    UpdateOne(p, i, 4, f);
    CoefficientPair(p, i, 5, f, s.mask, s.coefficient, s.add_delta, r.else_add);
    UpdateOne(p, i, 7, f);
  }

  /** The summand the instructions compute is the selected one when the mask survives the first pair. */
  lemma SelectSummand(p: RuntimeProgram, i: nat, s: SelectParts, r: AffineSelect, f: Frame)
    requires IsAffineSelect(p, i, s, r) && r.state_slot !in {s.cond, s.mask, s.coefficient}
    ensures IsStraight(p, i, r.consumed)
    ensures
      var taken := EvaluateCmp(r.cmp, Eval(r.cmp_lhs, f), Eval(r.cmp_rhs, f));
      var mul := if taken then r.then_mul else r.else_mul;
      var add := if taken then r.then_add else r.else_add;
      var mask: u64 := (0 - BoolWord(taken)) % WORD;
      var left := if s.mask == s.coefficient then mul else mask;
      && Get(Straight(p, i, f, 7), s.coefficient) == Xor64(And(left, s.add_delta), r.else_add)
      && add == Xor64(And(mask, s.add_delta), r.else_add)
  {
    hide Straight;
    hide EvaluateCmp;
    hide And;
    hide Xor64;
    SelectPrefix(p, i, s, r, f);
    var taken := EvaluateCmp(r.cmp, Eval(r.cmp_lhs, f), Eval(r.cmp_rhs, f));
    CoefficientPair(p, i, 2, f, s.mask, s.coefficient, s.mul_delta, r.else_mul);
    MaskSelects(taken, s.mul_delta, r.else_mul);
    MaskSelects(taken, s.add_delta, r.else_add);
    UpdateOne(p, i, 4, f);
    CoefficientPair(p, i, 5, f, s.mask, s.coefficient, s.add_delta, r.else_add);
  }

  /** The mask is still there when the summand is computed, or what is there instead does no harm. */
  predicate MaskSurvives(s: SelectParts, r: AffineSelect, f: Frame) {
    var taken := EvaluateCmp(r.cmp, Eval(r.cmp_lhs, f), Eval(r.cmp_rhs, f));
    s.mask == s.coefficient ==>
      And(if taken then r.then_mul else r.else_mul, s.add_delta) == And((0 - BoolWord(taken)) % WORD, s.add_delta)
  }

  lemma SumsDiffer(c: u64, a: u64, b: u64)
    ensures (c + a) % WORD == (c + b) % WORD <==> a == b
  {}

  lemma XorInjective(a: u64, b: u64, c: u64)
    ensures Xor64(a, c) == Xor64(b, c) <==> a == b
  {
    if Xor64(a, c) == Xor64(b, c) {
      forall i: nat
        ensures Bit(a, i) == Bit(b, i)
      {
        Words.BitXor(a, c, i);
        Words.BitXor(b, c, i);
      }
      SameBits(a, b);
    }
  }

  /** Before the final mask, the instructions compute the selected affine update on exactly the frames
      on which the mask survives; with a mask slot of its own it always does. */
  lemma SelectExact(p: RuntimeProgram, i: nat, s: SelectParts, r: AffineSelect, f: Frame)
    requires IsAffineSelect(p, i, s, r) && r.state_slot !in {s.cond, s.mask, s.coefficient}
    ensures IsStraight(p, i, r.consumed)
    ensures
      var (mul, add) := Chosen(r, f);
      Get(Straight(p, i, f, 8), r.state_slot) == ((Get(f, r.state_slot) * mul) % WORD + add) % WORD <==>
        MaskSurvives(s, r, f)
  {
    hide Straight;
    hide EvaluateCmp;
    hide And;
    hide Xor64;
    hide IsAffineSelect;
    SelectUpdates(p, i, s, r, f);
    SelectSummand(p, i, s, r, f);
    var taken := EvaluateCmp(r.cmp, Eval(r.cmp_lhs, f), Eval(r.cmp_rhs, f));
    var mul := if taken then r.then_mul else r.else_mul;
    var add := if taken then r.then_add else r.else_add;
    var mask: u64 := (0 - BoolWord(taken)) % WORD;
    var left := if s.mask == s.coefficient then mul else mask;
    SumsDiffer((Get(f, r.state_slot) * mul) % WORD, Xor64(And(left, s.add_delta), r.else_add), add);
    XorInjective(And(left, s.add_delta), And(mask, s.add_delta), r.else_add);
  }

  /** No instruction of the group writes anything but its temporaries and the state. */
  lemma SelectWrites(p: RuntimeProgram, i: nat, s: SelectParts, r: AffineSelect, f: Frame)
    requires IsAffineSelect(p, i, s, r)
    ensures IsStraight(p, i, r.consumed)
    ensures forall x :: x !in {s.cond, s.mask, s.coefficient, r.state_slot} ==>
      Get(Straight(p, i, f, r.consumed), x) == Get(f, x)
  {
    hide Straight;
    hide EvaluateCmp;
    hide And;
    hide Xor64;
    SelectPrefix(p, i, s, r, f);
    CoefficientPair(p, i, 2, f, s.mask, s.coefficient, s.mul_delta, r.else_mul);
    UpdateOne(p, i, 4, f);
    CoefficientPair(p, i, 5, f, s.mask, s.coefficient, s.add_delta, r.else_add);
    UpdateOne(p, i, 7, f);
    if r.consumed == 9 {
      UpdateOne(p, i, 8, f);
    }
  }

  /** What the group leaves in the state. */
  lemma SelectState(p: RuntimeProgram, i: nat, s: SelectParts, r: AffineSelect, f: Frame)
    requires IsAffineSelect(p, i, s, r)
    ensures IsStraight(p, i, r.consumed)
    ensures Get(Straight(p, i, f, r.consumed), r.state_slot) == And(Get(Straight(p, i, f, 8), r.state_slot), r.mask)
  {
    hide Straight;
    hide And;
    SelectPrefix(p, i, s, r, f);
    if r.consumed == 9 {
      UpdateOne(p, i, 8, f);
    } else {
      AndMax(Get(Straight(p, i, f, 8), r.state_slot));
    }
  }

  /** Where the mask survives, the fused selection leaves every slot but its temporaries as the group does. */
  lemma SelectGroup(p: RuntimeProgram, i: nat, s: SelectParts, r: AffineSelect, f: Frame)
    requires IsAffineSelect(p, i, s, r) && MaskSurvives(s, r, f)
    ensures IsStraight(p, i, r.consumed)
    ensures forall x :: x !in {s.cond, s.mask, s.coefficient} ==>
      Get(Straight(p, i, f, r.consumed), x) == Get(SelectFrame(r, f), x)
  {
    hide Straight;
    hide EvaluateCmp;
    hide And;
    hide MaskSurvives;
    hide IsAffineSelect;
    SelectWrites(p, i, s, r, f);
    SelectState(p, i, s, r, f);
    if r.state_slot !in {s.cond, s.mask, s.coefficient} {
      SelectExact(p, i, s, r, f);
    }
  }
}
