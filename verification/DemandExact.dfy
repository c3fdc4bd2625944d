/** What demanded bits are worth: which operations keep the demanded bits of their result while their operands
    keep theirs, and when a 32-bit instruction computes enough of a result. */
module DemandExact {
  import opened Words
  import opened Ir
  import opened Semantics
  import opened KnownBitsFacts
  import opened DemandedBits

  const HALF: int := 0x1_0000_0000

  // ----- equal in the bits that matter -----

  /** Equal in every bit of the mask. */
  ghost predicate Agree(mask: u64, a: u64, b: u64) {
    forall i: nat :: Bit(mask, i) ==> Bit(a, i) == Bit(b, i)
  }

  lemma AgreeSelf(mask: u64, a: u64)
    ensures Agree(mask, a, a)
  {}

  lemma AgreeLess(few: u64, many: u64, a: u64, b: u64)
    requires BitsIn(few, many) && Agree(many, a, b)
    ensures Agree(few, a, b)
  {
    hide Bit;
  }

  lemma AgreeChain(mask: u64, a: u64, b: u64, c: u64)
    requires Agree(mask, a, b) && Agree(mask, b, c)
    ensures Agree(mask, a, c)
  {
    hide Bit;
  }

  lemma AgreeNone(a: u64, b: u64)
    ensures Agree(0, a, b)
  {
    forall i: nat
      ensures !Bit(0, i)
    {
      BitOfZero(i);
    }
  }

  lemma AgreeAll(a: u64, b: u64)
    ensures Agree(MAX, a, b) <==> a == b
  {
    if Agree(MAX, a, b) {
      forall i: nat
        ensures Bit(a, i) == Bit(b, i)
      {
        Pow2Word();
        BitOfMask(64, i);
        Beyond(a, i);
        Beyond(b, i);
      }
      SameBits(a, b);
    }
  }

  // ----- masks without gaps -----

  /** A mask of the lowest bits. */
  predicate LowMask(m: nat) {
    m == 0 || (m % 2 == 1 && LowMask(m / 2))
  }

  lemma {:induction false} LowMaskIs(m: nat)
    requires LowMask(m)
    ensures m == Pow2(Digits(m)) - 1
  {
    if m > 0 {
      LowMaskIs(m / 2);
    }
  }

  /** Any other mask has a bit just above one that it lacks. */
  lemma {:induction false} GapBelow(m: nat) returns (i: nat)
    requires !LowMask(m)
    ensures Bit(m, i + 1) && !Bit(m, i)
  {
    if m % 2 == 0 && m / 2 % 2 == 1 {
      i := 0;
      assert Bit(m / 2, 0);
    } else {
      var j := GapBelow(m / 2);
      i := j + 1;
      assert Bit(m, i + 1) == Bit(m / 2, j + 1) && Bit(m, i) == Bit(m / 2, j);
    }
  }

  lemma {:induction false} HighBit(m: nat, k: nat) returns (i: nat)
    requires m >= Pow2(k)
    ensures i >= k && Bit(m, i)
    decreases m
  {
    if k > 0 {
      var j := HighBit(m / 2, k - 1);
      i := j + 1;
    } else if m % 2 == 1 {
      i := 0;
    } else {
      var j := HighBit(m / 2, 0);
      i := j + 1;
    }
  }

  lemma {:induction false} BitOfPow2(k: nat, i: nat)
    ensures Bit(Pow2(k), i) <==> i == k
  {
    if k > 0 && i > 0 {
      BitOfPow2(k - 1, i - 1);
    } else if i > 0 {
      BitOfZero(i - 1);
    }
  }

  lemma SmallPow2(k: nat)
    requires k < 64
    ensures Pow2(k) < WORD
  {
    Pow2Word();
    Pow2Mono(k, 63);
  }

  /** Two numbers agree on their lowest bits when they are equal modulo a power of two. */
  lemma AgreeLow(m: u64, k: nat, a: u64, b: u64)
    requires m == Pow2(k) - 1
    ensures Agree(m, a, b) <==> a % Pow2(k) == b % Pow2(k)
  {
    DownLowDivide(a, k);
    DownLowDivide(b, k);
    forall i: nat
      ensures Bit(m, i) <==> i < k
      ensures Bit(Low(a, k), i) == (i < k && Bit(a, i)) && Bit(Low(b, k), i) == (i < k && Bit(b, i))
    {
      BitOfMask(k, i);
      BitLow(a, k, i);
      BitLow(b, k, i);
    }
    hide Bit;
    hide Low;
    hide Pow2;
    if Agree(m, a, b) {
      forall i: nat
        ensures Bit(Low(a, k), i) == Bit(Low(b, k), i)
      {
        assert i < k ==> Bit(m, i);
      }
      SameBits(Low(a, k), Low(b, k));
    }
    if Low(a, k) == Low(b, k) {
      forall i: nat | Bit(m, i)
        ensures Bit(a, i) == Bit(b, i)
      {
        assert Bit(Low(a, k), i) == Bit(Low(b, k), i);
      }
    }
  }

  // ----- arithmetic modulo powers of two -----

  lemma ModShift(a: int, q: int, m: nat)
    requires m > 0
    ensures (a + m * q) % m == a % m
  {
    Distribute(m, a / m, q);
    DivUnique(a + m * q, m, a / m + q, a % m);
  }

  lemma ProductDifference(a: int, q: int, b: int, r: int, m: nat)
    ensures (a + m * q) * (b + m * r) == a * b + m * (q * b + (a + m * q) * r)
  {
    var c := a + m * q;
    assert c * (b + m * r) == c * b + c * (m * r);
    assert c * b == a * b + (m * q) * b;
    Associate(m, q, b);
    assert c * (m * r) == m * (c * r) by {
      Associate(c, m, r);
      Associate(m, c, r);
    }
    Distribute(m, q * b, c * r);
  }

  lemma Apart(a: int, c: int, m: nat) returns (q: int)
    requires m > 0 && a % m == c % m
    ensures c == a + m * q
  {
    q := c / m - a / m;
    Distribute(m, c / m, -(a / m));
  }

  /** Sums, differences and products of congruent numbers are congruent. */
  lemma Congruent(a: int, c: int, b: int, d: int, m: nat)
    requires m > 0 && a % m == c % m && b % m == d % m
    ensures (a + b) % m == (c + d) % m && (a - b) % m == (c - d) % m && (a * b) % m == (c * d) % m
  {
    var q := Apart(a, c, m);
    var r := Apart(b, d, m);
    CongruentSums(a, q, b, r, m);
    ProductDifference(a, q, b, r, m);
    ModShift(a * b, q * b + (a + m * q) * r, m);
  }

  lemma CongruentSums(a: int, q: int, b: int, r: int, m: nat)
    requires m > 0
    ensures (a + b) % m == ((a + m * q) + (b + m * r)) % m && (a - b) % m == ((a + m * q) - (b + m * r)) % m
  {
    Shifted(a + b, q + r, m, m * q + m * r, (a + m * q) + (b + m * r));
    Shifted(a - b, q - r, m, m * q - m * r, (a + m * q) - (b + m * r));
  }

  lemma Shifted(a: int, q: int, m: nat, d: int, c: int)
    requires m > 0 && c == a + d && d == m * q
    ensures a % m == c % m
  {
    ModShift(a, q, m);
  }

  lemma ModWord(x: int, k: nat)
    requires k <= 64
    ensures (x % WORD) % Pow2(k) == x % Pow2(k)
  {
    Pow2Word();
    Pow2Add(k, 64 - k);
    var m, rest, q := Pow2(k), Pow2(64 - k), x / WORD;
    hide Pow2;
    Associate(m, rest, q);
    assert x == x % WORD + m * (rest * q);
    ModShift(x % WORD, rest * q, m);
  }

  /** Sums, differences and products keep their lowest bits. */
  lemma ArithAgrees(op: RuntimeBinOp, k: nat, a: u64, c: u64, b: u64, d: u64)
    requires op.Add? || op.Sub? || op.Mul?
    requires k <= 64 && a % Pow2(k) == c % Pow2(k) && b % Pow2(k) == d % Pow2(k)
    ensures EvaluateBinop(op, a, b).Some? && EvaluateBinop(op, c, d).Some?
    ensures EvaluateBinop(op, a, b).value % Pow2(k) == EvaluateBinop(op, c, d).value % Pow2(k)
  {
    Congruent(a, c, b, d, Pow2(k));
    match op
    case Add =>
      ModWord(a + b, k);
      ModWord(c + d, k);
    case Sub =>
      ModWord(a - b, k);
      ModWord(c - d, k);
    case Mul =>
      ModWord(a * b, k);
      ModWord(c * d, k);
  }

  // ----- bits of shifts and extensions -----

  lemma SignBit(a: u64)
    ensures Bit(a, 63) <==> a >= SIGN
  {
    Pow2Word();
    if a < SIGN {
      BitBeyond(a, 63, 63);
    } else {
      BitDown(a, 63, 0);
      DownLowDivide(a, 63);
      DivUnique(a, SIGN, 1, a - SIGN);
    }
  }

  /** A signed shift brings in copies of the sign. */
  lemma BitSignedShift(a: u64, k: nat, i: nat)
    requires i < 64
    ensures Bit(ShiftRightSigned(a, k), i) == Bit(a, if i + k < 64 then i + k else 63)
  {
    SignBit(a);
    if a < SIGN {
      BitDown(a, k, i);
      Beyond(a, i + k);
    } else {
      BitNot(Down(Not(a), k), i);
      BitDown(Not(a), k, i);
      Beyond(Not(a), i + k);
      if i + k < 64 {
        BitNot(a, i + k);
      }
    }
  }

  /** Above the width there are zeros or copies of the sign. */
  lemma BitNormalize(v: u64, signed: bool, bits: nat, i: nat)
    requires i < 64
    ensures Bit(Normalize(v, signed, bits), i) ==
      if i < bits then Bit(v, i) else signed && bits > 0 && Bit(v, bits - 1)
  {
    if bits < 64 && !signed {
      BitLow(v, bits, i);
    } else if bits < 64 {
      var k := 64 - bits;
      BitSignedShift(ShiftLeft(v, k), k, i);
      BitShiftLeft(v, k, i + k);
      BitShiftLeft(v, k, 63);
    }
  }

  // ----- which demands are enough -----

  /** The sign of a shift by `k` is demanded, if any of its copies is. */
  predicate SignKept(output: u64, k: nat) {
    k >= 64 || output < Pow2(64 - k) || Bit(output, 63 - k)
  }

  /** The demand of the pass on the operands is enough for the demanded bits of the result. */
  predicate Adequate(op: RuntimeBinOp, rhs: RuntimeOperand, output: u64) {
    match op
    case Add | Sub | Mul => LowMask(output)
    case ShrSigned => rhs.Imm? ==> SignKept(output, rhs.imm)
    case _ => true
  }

  predicate NormalizeAdequate(signed: bool, bits: nat, output: u64) {
    !signed || bits == 0 || bits >= 64 || output < Pow2(bits) || Bit(output, bits - 1)
  }

  ghost predicate OperandAgrees(o: RuntimeOperand, mask: u64, a: u64, c: u64) {
    match o
    case Imm(v) => a == v && c == v
    case Slot(_) => Agree(mask, a, c)
  }

  ghost predicate ResultAgrees(output: u64, v: Option<u64>, w: Option<u64>) {
    match v
    case None => w == None
    case Some(x) => w.Some? && Agree(output, x, w.value)
  }

  lemma BitwiseAgrees(op: RuntimeBinOp, lhs: RuntimeOperand, rhs: RuntimeOperand, output: u64, a: u64, c: u64, b: u64,
      d: u64)
    requires op.BitAnd? || op.BitOr? || op.BitXor?
    requires OperandAgrees(lhs, LhsMask(op, rhs, output), a, c) && OperandAgrees(rhs, RhsMask(op, lhs, output), b, d)
    ensures ResultAgrees(output, EvaluateBinop(op, a, b), EvaluateBinop(op, c, d))
  {
    hide And;
    hide Or;
    hide Xor;
    hide Or64;
    hide Xor64;
    var x, y := EvaluateBinop(op, a, b).value, EvaluateBinop(op, c, d).value;
    forall i: nat | Bit(output, i)
      ensures Bit(x, i) == Bit(y, i)
    {
      BitsOfBitwise(op, a, b, i);
      BitsOfBitwise(op, c, d, i);
      if op.BitAnd? {
        if rhs.Imm? {
          Words.BitAnd(output, rhs.imm, i);
        }
        if lhs.Imm? {
          Words.BitAnd(output, lhs.imm, i);
        }
      }
    }
  }

  lemma BitsOfBitwise(op: RuntimeBinOp, a: u64, b: u64, i: nat)
    requires op.BitAnd? || op.BitOr? || op.BitXor?
    ensures EvaluateBinop(op, a, b).Some?
    ensures Bit(EvaluateBinop(op, a, b).value, i) ==
      if op.BitAnd? then Bit(a, i) && Bit(b, i) else if op.BitOr? then Bit(a, i)
        || Bit(b, i) else Bit(a, i) != Bit(b, i)
  {
    Words.BitAnd(a, b, i);
    Words.BitOr(a, b, i);
    Words.BitXor(a, b, i);
  }

  /** A shift by a constant keeps the demanded bits, if it is not one that copies an undemanded sign. */
  lemma ShiftAgrees(op: RuntimeBinOp, k: nat, output: u64, a: u64, c: u64)
    requires op.Shl? || op.ShrUnsigned? || op.ShrSigned?
    requires k < 64 && Agree(LhsMask(op, Imm(k), output), a, c) && Adequate(op, Imm(k), output)
    ensures ResultAgrees(output, EvaluateBinop(op, a, k), EvaluateBinop(op, c, k))
  {
    var x, y := EvaluateBinop(op, a, k).value, EvaluateBinop(op, c, k).value;
    var mask := LhsMask(op, Imm(k), output);
    forall i: nat | Bit(output, i)
      ensures Bit(x, i) == Bit(y, i)
    {
      Beyond(output, i);
      var j := if op.Shl? then i - k else if i + k < 64 then i + k else 63;
      if j >= 0 && (op.ShrUnsigned? ==> i + k < 64) {
        ShiftMask(op, k, output, i, j);
      }
      BitsOfShift(op, k, a, i);
      BitsOfShift(op, k, c, i);
    }
  }

  lemma BitsOfShift(op: RuntimeBinOp, k: nat, a: u64, i: nat)
    requires (op.Shl? || op.ShrUnsigned? || op.ShrSigned?) && k < 64 && i < 64
    ensures EvaluateBinop(op, a, k).Some?
    ensures Bit(EvaluateBinop(op, a, k).value, i) ==
      if op.Shl? then i >= k && Bit(a, i - k)
      else if i + k < 64 then Bit(a, i + k) else op.ShrSigned? && Bit(a, 63)
  {
    match op
    case Shl => BitShiftLeft(a, k, i);
    case ShrUnsigned =>
      BitDown(a, k, i);
      Beyond(a, i + k);
    case ShrSigned => BitSignedShift(a, k, i);
  }

  /** The bit that a demanded bit comes from is demanded. */
  lemma ShiftMask(op: RuntimeBinOp, k: nat, output: u64, i: nat, j: nat)
    requires (op.Shl? || op.ShrUnsigned? || op.ShrSigned?) && k < 64 && Adequate(op, Imm(k), output)
    requires Bit(output, i) && i < 64 && (op.ShrUnsigned? ==> i + k < 64)
    requires if op.Shl? then j + k == i else j == if i + k < 64 then i + k else 63
    ensures Bit(LhsMask(op, Imm(k), output), j)
  {
    if op.Shl? {
      BitDown(output, k, j);
    } else {
      BitShiftLeft(output, k, j);
      if i + k >= 64 && output < Pow2(64 - k) {
        BitBeyond(output, 64 - k, i);
      }
    }
  }

  /** Every binary operation keeps the demanded bits of its result, if the demand is adequate. */
  lemma BinopAgrees(op: RuntimeBinOp, lhs: RuntimeOperand, rhs: RuntimeOperand, output: u64, a: u64, c: u64, b: u64,
      d: u64)
    requires Adequate(op, rhs, output)
    requires OperandAgrees(lhs, LhsMask(op, rhs, output), a, c) && OperandAgrees(rhs, RhsMask(op, lhs, output), b, d)
    ensures ResultAgrees(output, EvaluateBinop(op, a, b), EvaluateBinop(op, c, d))
  {
    hide EvaluateBinop;
    if op.BitAnd? || op.BitOr? || op.BitXor? {
      BitwiseAgrees(op, lhs, rhs, output, a, c, b, d);
    } else if op.Add? || op.Sub? || op.Mul? {
      OperandLow(lhs, output, a, c);
      OperandLow(rhs, output, b, d);
      LowMaskIs(output);
      DigitsOfWord(output);
      var k := Digits(output);
      AgreeLow(output, k, a, c);
      AgreeLow(output, k, b, d);
      ArithAgrees(op, k, a, c, b, d);
      AgreeLow(output, k, EvaluateBinop(op, a, b).value, EvaluateBinop(op, c, d).value);
    } else if rhs.Imm? && rhs.imm < 64 && (op.Shl? || op.ShrUnsigned? || op.ShrSigned?) {
      OperandLow(lhs, LhsMask(op, rhs, output), a, c);
      ShiftAgrees(op, rhs.imm, output, a, c);
    } else {
      AllSame(lhs, a, c);
      AllSame(rhs, b, d);
      SameAgrees(output, EvaluateBinop(op, a, b));
    }
  }

  lemma OperandLow(o: RuntimeOperand, mask: u64, a: u64, c: u64)
    requires OperandAgrees(o, mask, a, c)
    ensures Agree(mask, a, c)
  {}

  lemma AllSame(o: RuntimeOperand, a: u64, c: u64)
    requires OperandAgrees(o, MAX, a, c)
    ensures a == c
  {
    AgreeAll(a, c);
  }

  lemma SameAgrees(output: u64, v: Option<u64>)
    ensures ResultAgrees(output, v, v)
  {}

  lemma DigitsOfWord(m: u64)
    ensures Digits(m) <= 64
  {
    Pow2Word();
    DigitsWithin(m, 64);
  }

  lemma NormalizeAgrees(signed: bool, bits: nat, output: u64, a: u64, c: u64)
    requires NormalizeAdequate(signed, bits, output) && Agree(And(output, WidthMask(bits)), a, c)
    ensures Agree(output, Normalize(a, signed, bits), Normalize(c, signed, bits))
  {
    hide Normalize;
    forall i: nat | Bit(output, i)
      ensures Bit(Normalize(a, signed, bits), i) == Bit(Normalize(c, signed, bits), i)
    {
      Beyond(output, i);
      BitNormalize(a, signed, bits, i);
      BitNormalize(c, signed, bits, i);
      var j := if i < bits then i else bits - 1;
      if j >= 0 {
        WidthBit(output, bits, j);
      }
      if i >= bits && output < Pow2(bits) {
        BitBeyond(output, bits, i);
      }
    }
  }

  lemma WidthBit(output: u64, bits: nat, j: nat)
    requires j < bits && j < 64
    ensures Bit(And(output, WidthMask(bits)), j) == Bit(output, j)
  {
    Words.BitAnd(output, WidthMask(bits), j);
    Pow2Word();
    BitOfMask(if bits >= 64 then 64 else bits, j);
  }

  // ----- and exactly which -----

  /** However the operands are changed outside the demand of the pass, the demanded bits of the result stay. */
  ghost predicate Keeps(op: RuntimeBinOp, lhs: RuntimeOperand, rhs: RuntimeOperand, output: u64) {
    forall a: u64, c: u64, b: u64, d: u64 ::
      OperandAgrees(lhs, LhsMask(op, rhs, output), a, c) && OperandAgrees(rhs, RhsMask(op, lhs, output), b, d) ==>
      ResultAgrees(output, EvaluateBinop(op, a, b), EvaluateBinop(op, c, d))
  }

  /** The demand of the pass on slots is enough if and only if it is adequate. */
  lemma KeepsIff(op: RuntimeBinOp, x: nat, rhs: RuntimeOperand, output: u64)
    requires rhs.Slot? || op.ShrSigned?
    ensures Keeps(op, Slot(x), rhs, output) <==> Adequate(op, rhs, output)
  {
    if Adequate(op, rhs, output) {
      forall a: u64, c: u64, b: u64, d: u64 |
        OperandAgrees(Slot(x), LhsMask(op, rhs, output), a, c) &&
        OperandAgrees(rhs, RhsMask(op, Slot(x), output), b, d)
        ensures ResultAgrees(output, EvaluateBinop(op, a, b), EvaluateBinop(op, c, d))
      {
        BinopAgrees(op, Slot(x), rhs, output, a, c, b, d);
      }
    } else if op.ShrSigned? {
      SignLost(rhs.imm, output);
    } else {
      var a, c, b, d := CarryLost(op, output);
      hide Agree;
      hide EvaluateBinop;
      assert OperandAgrees(Slot(x), LhsMask(op, rhs, output), a, c);
      assert OperandAgrees(rhs, RhsMask(op, Slot(x), output), b, d);
    }
  }

  /** The demand of the pass on what is normalised is enough if and only if it is adequate. */
  lemma NormalizeIff(signed: bool, bits: nat, output: u64)
    ensures NormalizeAdequate(signed, bits, output) <==>
      forall a: u64, c: u64 :: Agree(And(output, WidthMask(bits)), a, c) ==>
        Agree(output, Normalize(a, signed, bits), Normalize(c, signed, bits))
  {
    if NormalizeAdequate(signed, bits, output) {
      forall a: u64, c: u64 | Agree(And(output, WidthMask(bits)), a, c)
        ensures Agree(output, Normalize(a, signed, bits), Normalize(c, signed, bits))
      {
        NormalizeAgrees(signed, bits, output, a, c);
      }
    } else {
      ExtensionLost(bits, output);
    }
  }

  /** A demanded copy of an undemanded sign changes with the sign. */
  lemma ExtensionLost(bits: nat, output: u64)
    requires !NormalizeAdequate(true, bits, output)
    ensures exists a: u64, c: u64 ::
      Agree(And(output, WidthMask(bits)), a, c) && !Agree(output, Normalize(a, true, bits), Normalize(c, true, bits))
  {
    var i := HighBit(output, bits);
    Beyond(output, i);
    SmallPow2(bits - 1);
    var a: u64 := Pow2(bits - 1);
    forall j: nat
      ensures Bit(a, j) <==> j == bits - 1
      ensures !Bit(0, j)
      ensures Bit(And(output, WidthMask(bits)), j) ==> Bit(output, j)
    {
      BitOfPow2(bits - 1, j);
      BitOfZero(j);
      Words.BitAnd(output, WidthMask(bits), j);
    }
    BitNormalize(a, true, bits, i);
    BitNormalize(0, true, bits, i);
    hide Pow2;
    hide And;
    hide Normalize;
    hide WidthMask;
    assert Agree(And(output, WidthMask(bits)), a, 0);
    assert !Agree(output, Normalize(a, true, bits), Normalize(0, true, bits));
  }

  /** A carry out of an undemanded bit changes a demanded one. */
  lemma CarryLost(op: RuntimeBinOp, output: u64) returns (a: u64, c: u64, b: u64, d: u64)
    requires (op.Add? || op.Sub? || op.Mul?) && !LowMask(output)
    ensures Agree(output, a, c) && Agree(output, b, d)
    ensures !ResultAgrees(output, EvaluateBinop(op, a, b), EvaluateBinop(op, c, d))
  {
    var i := GapBelow(output);
    Beyond(output, i + 1);
    SmallPow2(i + 1);
    var one: u64, two: u64 := Pow2(i), Pow2(i + 1);
    SingleBits(output, i);
    assert two == one + one;
    hide Pow2;
    hide Bit;
    AgreeSelf(output, one);
    AgreeSelf(output, two);
    AgreeSelf(output, 2);
    if op.Add? {
      a, c, b, d := one, 0, one, one;
    } else if op.Sub? {
      a, c, b, d := two, two, one, 0;
    } else {
      a, c, b, d := one, 0, 2, 2;
    }
    hide Agree;
  }

  lemma SingleBits(output: u64, i: nat)
    requires Bit(output, i + 1) && !Bit(output, i) && Pow2(i + 1) < WORD && Pow2(i) < WORD
    ensures Agree(output, Pow2(i), 0) && Agree(output, 0, Pow2(i))
    ensures !Agree(output, Pow2(i + 1), Pow2(i)) && !Agree(output, Pow2(i), Pow2(i + 1))
      && !Agree(output, Pow2(i + 1), 0)
  {
    forall j: nat
      ensures Bit(Pow2(i), j) <==> j == i
      ensures Bit(Pow2(i + 1), j) <==> j == i + 1
      ensures !Bit(0, j)
    {
      BitOfPow2(i, j);
      BitOfPow2(i + 1, j);
      BitOfZero(j);
    }
    hide Pow2;
  }

  /** A demanded copy of an undemanded sign changes with the sign. */
  lemma SignLost(k: u64, output: u64)
    requires !SignKept(output, k)
    ensures Agree(LhsMask(ShrSigned, Imm(k), output), SIGN, 0)
    ensures !ResultAgrees(output, EvaluateBinop(ShrSigned, SIGN, k), EvaluateBinop(ShrSigned, 0, k))
  {
    var i := HighBit(output, 64 - k);
    Beyond(output, i);
    BitOfZero(63);
    SignBit(SIGN);
    BitsOfShift(ShrSigned, k, SIGN, i);
    BitsOfShift(ShrSigned, k, 0, i);
    BitShiftLeft(output, k, 63);
    Pow2Word();
    forall j: nat
      ensures Bit(SIGN, j) <==> j == 63
      ensures !Bit(0, j)
    {
      BitOfPow2(63, j);
      BitOfZero(j);
    }
  }

  // ----- 32-bit instructions -----

  /** The operations with a 32-bit form; it computes on the lower halves and clears the upper half. */
  predicate Narrows(op: RuntimeBinOp, rhs: RuntimeOperand) {
    match op
    case Add | Sub | Mul | BitAnd | BitOr | BitXor => true
    case Shl | ShrUnsigned => rhs.Imm? && rhs.imm < 32
    case _ => false
  }

  function Narrowed(op: RuntimeBinOp, a: u64, b: u64): u64 {
    match EvaluateBinop(op, a % HALF, b % HALF)
    case None => 0
    case Some(v) => v % HALF
  }

  /** No demanded bit comes from the upper half. */
  predicate NarrowAdequate(op: RuntimeBinOp, rhs: RuntimeOperand, output: u64) {
    output < HALF && (op.ShrUnsigned? && rhs.Imm? && rhs.imm < 32 ==> output < Pow2(32 - rhs.imm))
  }

  lemma BitOfHalf(a: u64, i: nat)
    ensures Bit(a % HALF, i) == (i < 32 && Bit(a, i))
  {
    Pow2Word();
    DownLowDivide(a, 32);
    BitLow(a, 32, i);
  }

  /** The 32-bit instruction computes the demanded bits. */
  lemma NarrowAgrees(op: RuntimeBinOp, rhs: RuntimeOperand, output: u64, a: u64, b: u64)
    requires Narrows(op, rhs) && NarrowAdequate(op, rhs, output) && (rhs.Imm? ==> b == rhs.imm)
    ensures EvaluateBinop(op, a, b).Some? && Agree(output, EvaluateBinop(op, a, b).value, Narrowed(op, a, b))
  {
    hide EvaluateBinop;
    if op.Add? || op.Sub? || op.Mul? {
      NarrowArith(op, a, b);
    }
    forall i: nat | Bit(output, i)
      ensures EvaluateBinop(op, a, b).Some? && Bit(EvaluateBinop(op, a, b).value, i) == Bit(Narrowed(op, a, b), i)
    {
      Pow2Word();
      if i >= 32 {
        BitBeyond(output, 32, i);
      }
      if op.ShrUnsigned? && i >= 32 - b {
        BitBeyond(output, 32 - b, i);
      }
      NarrowBit(op, rhs, a, b, i);
    }
    NarrowSome(op, rhs, a, b);
  }

  lemma NarrowSome(op: RuntimeBinOp, rhs: RuntimeOperand, a: u64, b: u64)
    requires Narrows(op, rhs)
    ensures EvaluateBinop(op, a, b).Some?
  {}

  lemma NarrowArith(op: RuntimeBinOp, a: u64, b: u64)
    requires op.Add? || op.Sub? || op.Mul?
    ensures EvaluateBinop(op, a, b).Some? && EvaluateBinop(op, a, b).value % HALF == Narrowed(op, a, b)
  {
    Pow2Word();
    ArithAgrees(op, 32, a, a % HALF, b, b % HALF);
  }

  lemma NarrowBit(op: RuntimeBinOp, rhs: RuntimeOperand, a: u64, b: u64, i: nat)
    requires Narrows(op, rhs) && i < 32 && (rhs.Imm? ==> b == rhs.imm) && (op.ShrUnsigned? ==> i + b < 32)
    ensures EvaluateBinop(op, a, b).Some? && Bit(EvaluateBinop(op, a, b).value, i) == Bit(Narrowed(op, a, b), i)
  {
    BitOfHalf(a, i);
    BitOfHalf(b, i);
    if op.Add? || op.Sub? || op.Mul? {
      NarrowArith(op, a, b);
      BitOfHalf(EvaluateBinop(op, a, b).value, i);
    } else if op.BitAnd? || op.BitOr? || op.BitXor? {
      BitsOfBitwise(op, a, b, i);
      BitsOfBitwise(op, a % HALF, b % HALF, i);
      BitOfHalf(EvaluateBinop(op, a % HALF, b % HALF).value, i);
    } else {
      assert b % HALF == b;
      BitsOfShift(op, b, a, i);
      BitsOfShift(op, b, a % HALF, i);
      BitOfHalf(EvaluateBinop(op, a % HALF, b).value, i);
      if op.Shl? && i >= b {
        BitOfHalf(a, i - b);
      } else if op.ShrUnsigned? {
        BitOfHalf(a, i + b);
      }
    }
  }

  lemma ShiftsRight(k: u64, a: u64)
    requires k < 32
    ensures EvaluateBinop(ShrUnsigned, a, k) == Some(ShiftRight(a, k))
    ensures Narrowed(ShrUnsigned, a, k) == ShiftRight(a % HALF, k) % HALF
  {}

  /** A 32-bit right shift is right if and only if no demanded bit comes from the upper half. */
  lemma NarrowShiftIff(k: u64, output: u64)
    requires k < 32 && output < HALF
    ensures (forall a: u64 :: Agree(output, ShiftRight(a, k), Narrowed(ShrUnsigned, a, k))) <==>
      NarrowAdequate(ShrUnsigned, Imm(k), output)
  {
    hide Agree;
    hide EvaluateBinop;
    hide Narrowed;
    hide ShiftRight;
    if NarrowAdequate(ShrUnsigned, Imm(k), output) {
      forall a: u64
        ensures Agree(output, ShiftRight(a, k), Narrowed(ShrUnsigned, a, k))
      {
        NarrowAgrees(ShrUnsigned, Imm(k), output, a, k);
        ShiftsRight(k, a);
      }
    } else {
      UpperLost(k, output);
    }
  }

  lemma UpperLost(k: u64, output: u64)
    requires k < 32 && Pow2(32 - k) <= output < HALF
    ensures exists a: u64 :: !Agree(output, ShiftRight(a, k), Narrowed(ShrUnsigned, a, k))
  {
    var i := HighBit(output, 32 - k);
    Pow2Word();
    if i >= 32 {
      BitBeyond(output, 32, i);
    }
    SmallPow2(i + k);
    BitOfPow2(i + k, i + k);
    var a: u64 := Pow2(i + k);
    hide Pow2;
    UpperBitLost(k, a, i);
    hide Bit;
    hide Narrowed;
    hide ShiftRight;
    assert !Agree(output, ShiftRight(a, k), Narrowed(ShrUnsigned, a, k));
  }

  lemma UpperBitLost(k: u64, a: u64, i: nat)
    requires k < 32 <= i + k && i < 32 && Bit(a, i + k)
    ensures Bit(ShiftRight(a, k), i) && !Bit(Narrowed(ShrUnsigned, a, k), i)
  {
    hide EvaluateBinop;
    hide Bit;
    hide Narrowed;
    hide ShiftRight;
    ShiftsRight(k, a);
    ShiftsRight(k, a % HALF);
    BitsOfShift(ShrUnsigned, k, a, i);
    BitsOfShift(ShrUnsigned, k, a % HALF, i);
    BitOfHalf(a, i + k);
    BitOfHalf(ShiftRight(a % HALF, k), i);
  }
}
