/** Known-bits facts and their transfer functions: which bits of a value are surely 0 or surely 1. */
module KnownBitsFacts {
  import opened Words
  import opened Ir
  import opened Semantics

  datatype KnownBits = KnownBits(zero: u64, one: u64)

  const UNKNOWN: KnownBits := KnownBits(0, 0)

  function Constant(v: u64): KnownBits {
    KnownBits(Not(v), v)
  }

  /** `x` may be the value of something about which `k` is known. */
  ghost predicate Fits(k: KnownBits, x: u64) {
    forall i: nat {:trigger FitsBit(k, x, i)} :: i < 64 ==> FitsBit(k, x, i)
  }

  predicate FitsBit(k: KnownBits, x: u64, i: nat) {
    (Bit(k.zero, i) ==> !Bit(x, i)) && (Bit(k.one, i) ==> Bit(x, i))
  }

  /** The same thing said with masks. */
  lemma FitsMasks(k: KnownBits, x: u64)
    ensures Fits(k, x) <==> And(x, k.zero) == 0 && And(x, k.one) == k.one
  {
    forall i: nat
      ensures Bit(And(x, k.zero), i) == (Bit(x, i) && Bit(k.zero, i))
      ensures Bit(And(x, k.one), i) == (Bit(x, i) && Bit(k.one, i))
      ensures !Bit(0, i) && (i >= 64 ==> !Bit(x, i) && !Bit(k.one, i))
    {
      Words.BitAnd(x, k.zero, i);
      Words.BitAnd(x, k.one, i);
      BitOfZero(i);
      Beyond(x, i);
      Beyond(k.one, i);
    }
    if Fits(k, x) {
      forall i: nat
        ensures Bit(And(x, k.zero), i) == Bit(0, i) && Bit(And(x, k.one), i) == Bit(k.one, i)
      {
        assert i < 64 ==> FitsBit(k, x, i);
      }
      SameBits(And(x, k.zero), 0);
      SameBits(And(x, k.one), k.one);
    } else {
      var i: nat :| i < 64 && !FitsBit(k, x, i);
      assert Bit(And(x, k.zero), i) == (Bit(x, i) && Bit(k.zero, i));
    }
  }

  lemma Beyond(x: u64, i: nat)
    ensures i >= 64 ==> !Bit(x, i)
  {
    Pow2Word();
    if i >= 64 {
      BitBeyond(x, 64, i);
    }
  }

  // ----- transfer functions -----

  /** Inputs that agree on a bit keep it. */
  function Meet(a: KnownBits, b: KnownBits): KnownBits {
    KnownBits(And(a.zero, b.zero), And(a.one, b.one))
  }

  /** Every sweep drops bits claimed to be both 0 and 1. */
  function Consistent(k: KnownBits): KnownBits {
    KnownBits(And(k.zero, Not(k.one)), And(k.one, Not(k.zero)))
  }

  /** How many binary digits `x` has: 64 less its leading zeros. */
  function Digits(x: nat): (n: nat)
    ensures x < Pow2(n)
  {
    if x == 0 then 0 else 1 + Digits(x / 2)
  }

  function LeadingZeros(x: u64): nat {
    Pow2Word();
    DigitsWithin(x, 64);
    64 - Digits(x)
  }

  lemma {:induction false} DigitsWithin(x: nat, n: nat)
    requires x < Pow2(n)
    ensures Digits(x) <= n
  {
    if x > 0 {
      DigitsWithin(x / 2, n - 1);
    }
  }

  function KnownForAdd(lhs: KnownBits, rhs: KnownBits): KnownBits {
    var max := Not(lhs.zero) + Not(rhs.zero);
    if max >= WORD then UNKNOWN
    else KnownBits(Not(if max == 0 then 0 else ShiftRight(MAX, LeadingZeros(max))), 0)
  }

  function LowMask(k: nat): u64
    requires k < 64
  {
    Pow2Word();
    Pow2Mono(k, 64);
    Pow2(k) - 1
  }

  function KnownForShl(lhs: KnownBits, k: nat): KnownBits
    requires k < 64
  {
    KnownBits(Or64(ShiftLeft(lhs.zero, k), LowMask(k)), ShiftLeft(lhs.one, k))
  }

  function KnownForShr(lhs: KnownBits, k: nat): KnownBits
    requires k < 64
  {
    KnownBits(Or64(ShiftRight(lhs.zero, k), if k == 0 then 0 else ShiftLeft(MAX, 64 - k)), ShiftRight(lhs.one, k))
  }

  /** `known_bits_for_binop` */
  function KnownForBinop(op: RuntimeBinOp, lo: RuntimeOperand, ro: RuntimeOperand, lhs: KnownBits,
      rhs: KnownBits): KnownBits
  {
    match op
    case BitAnd => KnownBits(Or64(lhs.zero, rhs.zero), And(lhs.one, rhs.one))
    case BitOr => KnownBits(And(lhs.zero, rhs.zero), Or64(lhs.one, rhs.one))
    case BitXor =>
      KnownBits(Or64(And(lhs.zero, rhs.zero), And(lhs.one, rhs.one)),
        Or64(And(lhs.zero, rhs.one), And(lhs.one, rhs.zero)))
    case Shl => if ro.Imm? && ro.imm < 64 then KnownForShl(lhs, ro.imm) else UNKNOWN
    case ShrUnsigned => if ro.Imm? && ro.imm < 64 then KnownForShr(lhs, ro.imm) else UNKNOWN
    case Add => if ro == Imm(0) then lhs else if lo == Imm(0) then rhs else KnownForAdd(lhs, rhs)
    case Sub => if ro == Imm(0) then lhs else UNKNOWN
    case Mul =>
      if ro == Imm(0) || lo == Imm(0) then Constant(0)
      else if ro == Imm(1) then lhs
      else if lo == Imm(1) then rhs
      else UNKNOWN
    case _ => UNKNOWN
  }

  function KnownForNormalize(input: KnownBits, signed: bool, bits: nat): KnownBits {
    if bits >= 64 then input
    else if !signed then KnownBits(Or64(input.zero, Not(LowMask(bits))), And(input.one, LowMask(bits)))
    else UNKNOWN
  }

  // ----- what each transfer function promises -----

  lemma FitsUnknown(x: u64)
    ensures Fits(UNKNOWN, x)
  {
    forall i: nat | i < 64
      ensures FitsBit(UNKNOWN, x, i)
    {
      BitOfZero(i);
    }
  }

  lemma FitsConstant(v: u64)
    ensures Fits(Constant(v), v)
  {
    forall i: nat | i < 64
      ensures FitsBit(Constant(v), v, i)
    {
      BitNot(v, i);
    }
  }

  lemma FitsMeet(a: KnownBits, b: KnownBits, x: u64)
    requires Fits(a, x) || Fits(b, x)
    ensures Fits(Meet(a, b), x)
  {
    forall i: nat | i < 64
      ensures FitsBit(Meet(a, b), x, i)
    {
      Words.BitAnd(a.zero, b.zero, i);
      Words.BitAnd(a.one, b.one, i);
      assert FitsBit(a, x, i) || FitsBit(b, x, i);
    }
  }

  lemma FitsConsistent(k: KnownBits, x: u64)
    requires Fits(k, x)
    ensures Fits(Consistent(k), x)
  {
    forall i: nat | i < 64
      ensures FitsBit(Consistent(k), x, i)
    {
      Words.BitAnd(k.zero, Not(k.one), i);
      Words.BitAnd(k.one, Not(k.zero), i);
      assert FitsBit(k, x, i);
    }
  }

  lemma FitsBitwise(l: KnownBits, r: KnownBits, x: u64, y: u64, lo: RuntimeOperand, ro: RuntimeOperand)
    requires Fits(l, x) && Fits(r, y)
    ensures Fits(KnownForBinop(BitAnd, lo, ro, l, r), And(x, y))
    ensures Fits(KnownForBinop(BitOr, lo, ro, l, r), Or64(x, y))
    ensures Fits(KnownForBinop(BitXor, lo, ro, l, r), Xor64(x, y))
  {
    forall i: nat | i < 64
      ensures FitsBit(KnownForBinop(BitAnd, lo, ro, l, r), And(x, y), i)
      ensures FitsBit(KnownForBinop(BitOr, lo, ro, l, r), Or64(x, y), i)
      ensures FitsBit(KnownForBinop(BitXor, lo, ro, l, r), Xor64(x, y), i)
    {
      assert FitsBit(l, x, i) && FitsBit(r, y, i);
      Words.BitAnd(x, y, i);
      Words.BitOr(x, y, i);
      Words.BitXor(x, y, i);
      Words.BitOr(l.zero, r.zero, i);
      Words.BitOr(l.one, r.one, i);
      Words.BitAnd(l.zero, r.zero, i);
      Words.BitAnd(l.one, r.one, i);
      Words.BitAnd(l.zero, r.one, i);
      Words.BitAnd(l.one, r.zero, i);
      Words.BitOr(And(l.zero, r.zero), And(l.one, r.one), i);
      Words.BitOr(And(l.zero, r.one), And(l.one, r.zero), i);
    }
  }

  lemma BitShiftLeft(a: u64, k: nat, i: nat)
    ensures Bit(ShiftLeft(a, k), i) == (i < 64 && i >= k && Bit(a, i - k))
  {
    Pow2Word();
    DownLowDivide(Up(a, k), 64);
    BitLow(Up(a, k), 64, i);
    BitUp(a, k, i);
  }

  lemma FitsShl(l: KnownBits, x: u64, k: nat)
    requires Fits(l, x) && k < 64
    ensures Fits(KnownForShl(l, k), ShiftLeft(x, k))
  {
    forall i: nat | i < 64
      ensures FitsBit(KnownForShl(l, k), ShiftLeft(x, k), i)
    {
      BitShiftLeft(x, k, i);
      BitShiftLeft(l.zero, k, i);
      BitShiftLeft(l.one, k, i);
      Words.BitOr(ShiftLeft(l.zero, k), LowMask(k), i);
      BitOfMask(k, i);
      assert i >= k ==> FitsBit(l, x, i - k);
    }
  }

  lemma FitsShr(l: KnownBits, x: u64, k: nat)
    requires Fits(l, x) && k < 64
    ensures Fits(KnownForShr(l, k), ShiftRight(x, k))
  {
    var introduced: u64 := if k == 0 then 0 else ShiftLeft(MAX, 64 - k);
    forall i: nat | i < 64
      ensures FitsBit(KnownForShr(l, k), ShiftRight(x, k), i)
    {
      BitDown(x, k, i);
      BitDown(l.zero, k, i);
      BitDown(l.one, k, i);
      Words.BitOr(ShiftRight(l.zero, k), introduced, i);
      BitOfZero(i);
      BitShiftLeft(MAX, 64 - k, i);
      Beyond(x, i + k);
      Beyond(l.one, i + k);
      assert i + k < 64 ==> FitsBit(l, x, i + k);
    }
  }

  /** A value is at most the complement of the bits known to be zero. */
  lemma FitsBelow(k: KnownBits, x: u64)
    requires Fits(k, x)
    ensures x <= Not(k.zero)
  {
    forall i: nat
      ensures Bit(x, i) ==> Bit(Not(k.zero), i)
    {
      Beyond(x, i);
      if i < 64 {
        BitNot(k.zero, i);
        assert FitsBit(k, x, i);
      }
    }
    BitsBelow(x, Not(k.zero));
  }

  lemma OnesAbove(n: nat, x: u64)
    requires n <= 64 && x < Pow2(n)
    ensures Fits(KnownBits(Not(ShiftRight(MAX, 64 - n)), 0), x)
  {
    var k := KnownBits(Not(ShiftRight(MAX, 64 - n)), 0);
    forall i: nat | i < 64
      ensures FitsBit(k, x, i)
    {
      BitOfZero(i);
      BitNot(ShiftRight(MAX, 64 - n), i);
      BitDown(MAX, 64 - n, i);
      Pow2Word();
      BitOfMask(64, i + (64 - n));
      if i >= n {
        BitBeyond(x, n, i);
      }
    }
  }

  lemma FitsAdd(l: KnownBits, r: KnownBits, x: u64, y: u64)
    requires Fits(l, x) && Fits(r, y)
    ensures Fits(KnownForAdd(l, r), (x + y) % WORD)
  {
    hide Pow2;
    hide Digits;
    hide Fits;
    hide Down;
    FitsBelow(l, x);
    FitsBelow(r, y);
    var max := Not(l.zero) + Not(r.zero);
    if max >= WORD {
      FitsUnknown((x + y) % WORD);
    } else if max == 0 {
      FitsConstant(0);
    } else {
      Pow2Word();
      DigitsWithin(max, 64);
      OnesAbove(Digits(max), x + y);
    }
  }

  lemma FitsNormalize(l: KnownBits, x: u64, signed: bool, bits: nat)
    requires Fits(l, x)
    ensures Fits(KnownForNormalize(l, signed, bits), Normalize(x, signed, bits))
  {
    if bits < 64 && signed {
      FitsUnknown(Normalize(x, signed, bits));
    } else if bits < 64 {
      var mask := LowMask(bits);
      forall i: nat | i < 64
        ensures FitsBit(KnownForNormalize(l, signed, bits), Low(x, bits), i)
      {
        assert FitsBit(l, x, i);
        BitLow(x, bits, i);
        BitOfMask(bits, i);
        BitNot(mask, i);
        Words.BitOr(l.zero, Not(mask), i);
        Words.BitAnd(l.one, mask, i);
      }
    }
  }

  /** Whatever a binary operation computes fits what is known about it. */
  lemma FitsBinop(op: RuntimeBinOp, lo: RuntimeOperand, ro: RuntimeOperand, l: KnownBits, r: KnownBits, x: u64, y: u64)
    requires Fits(l, x) && Fits(r, y) && (lo.Imm? ==> x == lo.imm) && (ro.Imm? ==> y == ro.imm)
    requires EvaluateBinop(op, x, y).Some?
    ensures Fits(KnownForBinop(op, lo, ro, l, r), EvaluateBinop(op, x, y).value)
  {
    hide Fits;
    hide And;
    hide Or;
    hide Xor;
    hide Pow2;
    hide KnownForAdd;
    hide KnownForShl;
    hide KnownForShr;
    hide SignedDivision;
    var z := EvaluateBinop(op, x, y).value;
    FitsUnknown(z);
    FitsConstant(0);
    match op
    case BitAnd => FitsBitwise(l, r, x, y, lo, ro);
    case BitOr => FitsBitwise(l, r, x, y, lo, ro);
    case BitXor => FitsBitwise(l, r, x, y, lo, ro);
    case Shl => if ro.Imm? && ro.imm < 64 { FitsShl(l, x, ro.imm); }
    case ShrUnsigned => if ro.Imm? && ro.imm < 64 { FitsShr(l, x, ro.imm); }
    case Add => FitsAdd(l, r, x, y);
    case Mul => assert x * 1 == x && 1 * y == y && x * 0 == 0 && 0 * y == 0;
    case _ =>
  }
}
