/** 64-bit machine words as integers below 2^64, with the bitwise operations of `u64` defined
    digit by digit.  Every bitwise fact the compiler passes rely on is proved here, per bit. */
module Words {

  const WORD: int := 0x1_0000_0000_0000_0000
  const MAX: int := 0xFFFF_FFFF_FFFF_FFFF
  const SIGN: int := 0x8000_0000_0000_0000

  type u64 = x: int | 0 <= x < 0x1_0000_0000_0000_0000

  function Pow2(n: nat): (r: nat)
    ensures r > 0
  {
    if n == 0 then 1 else 2 * Pow2(n - 1)
  }

  /** Bit `i` of `x`, counting from the least significant one. */
  predicate Bit(x: nat, i: nat) {
    if i == 0 then x % 2 == 1 else Bit(x / 2, i - 1)
  }

  function And(a: nat, b: nat): (r: nat)
    ensures r <= a && r <= b
  {
    if a == 0 || b == 0 then 0 else 2 * And(a / 2, b / 2) + (a % 2) * (b % 2)
  }

  function Or(a: nat, b: nat): (r: nat)
    ensures r >= a && r >= b
    decreases a + b
  {
    if a == 0 then b
    else if b == 0 then a
    else 2 * Or(a / 2, b / 2) + (if a % 2 == 1 || b % 2 == 1 then 1 else 0)
  }

  function Xor(a: nat, b: nat): nat
    decreases a + b
  {
    if a == 0 then b
    else if b == 0 then a
    else 2 * Xor(a / 2, b / 2) + (if a % 2 != b % 2 then 1 else 0)
  }

  function Not(a: u64): u64 {
    MAX - a
  }

  /** `a` moved `k` places down, `a` moved `k` places up, and the lowest `k` bits of `a`. */
  function Down(a: nat, k: nat): (r: nat)
    ensures r <= a
  {
    if k == 0 then a else Down(a / 2, k - 1)
  }

  function Up(a: nat, k: nat): nat {
    if k == 0 then a else 2 * Up(a, k - 1)
  }

  function Low(a: nat, k: nat): (r: nat)
    ensures r <= a
  {
    if k == 0 then 0 else 2 * Low(a / 2, k - 1) + a % 2
  }

  // ----- powers of two -----

  lemma Pow2Add(m: nat, n: nat)
    ensures Pow2(m + n) == Pow2(m) * Pow2(n)
  {
    if m > 0 {
      Pow2Add(m - 1, n);
      assert m + n - 1 == (m - 1) + n;
    }
  }

  lemma Pow2Word()
    ensures Pow2(8) == 0x100 && Pow2(32) == 0x1_0000_0000 && Pow2(63) == SIGN && Pow2(64) == WORD
  {
    assert Pow2(8) == 0x100;
    Pow2Add(8, 8);
    Pow2Add(16, 16);
    Pow2Add(32, 32);
    assert Pow2(64) == 2 * Pow2(63);
  }

  lemma Pow2Mono(m: nat, n: nat)
    requires m <= n
    ensures Pow2(m) <= Pow2(n)
  {
    if m < n {
      Pow2Mono(m, n - 1);
    }
  }

  // ----- the meaning of the digit-wise operations -----

  lemma {:induction false} BitOfZero(i: nat)
    ensures !Bit(0, i)
  {
    if i > 0 {
      BitOfZero(i - 1);
    }
  }

  lemma {:induction false} BitAnd(a: nat, b: nat, i: nat)
    ensures Bit(And(a, b), i) == (Bit(a, i) && Bit(b, i))
  {
    BitOfZero(i);
    if a != 0 && b != 0 && i > 0 {
      assert And(a, b) / 2 == And(a / 2, b / 2);
      BitAnd(a / 2, b / 2, i - 1);
    }
  }

  lemma {:induction false} BitOr(a: nat, b: nat, i: nat)
    ensures Bit(Or(a, b), i) == (Bit(a, i) || Bit(b, i))
  {
    BitOfZero(i);
    if a != 0 && b != 0 && i > 0 {
      assert Or(a, b) / 2 == Or(a / 2, b / 2);
      BitOr(a / 2, b / 2, i - 1);
    }
  }

  lemma {:induction false} BitXor(a: nat, b: nat, i: nat)
    ensures Bit(Xor(a, b), i) == (Bit(a, i) != Bit(b, i))
  {
    BitOfZero(i);
    if a != 0 && b != 0 && i > 0 {
      assert Xor(a, b) / 2 == Xor(a / 2, b / 2);
      BitXor(a / 2, b / 2, i - 1);
    }
  }

  lemma {:induction false} BitNotWithin(a: nat, n: nat, i: nat)
    requires i < n && a < Pow2(n)
    ensures Bit(Pow2(n) - 1 - a, i) == !Bit(a, i)
  {
    var c := Pow2(n) - 1 - a;
    assert c % 2 == 1 - a % 2 && c / 2 == Pow2(n - 1) - 1 - a / 2;
    if i > 0 {
      BitNotWithin(a / 2, n - 1, i - 1);
    }
  }

  lemma BitNot(a: u64, i: nat)
    requires i < 64
    ensures Bit(Not(a), i) == !Bit(a, i)
  {
    Pow2Word();
    BitNotWithin(a, 64, i);
  }

  lemma {:induction false} BitBeyond(a: nat, n: nat, i: nat)
    requires a < Pow2(n) && n <= i
    ensures !Bit(a, i)
  {
    if n == 0 {
      BitOfZero(i);
    } else {
      BitBeyond(a / 2, n - 1, i - 1);
    }
  }

  lemma {:induction false} BitDown(a: nat, k: nat, i: nat)
    ensures Bit(Down(a, k), i) == Bit(a, i + k)
  {
    if k > 0 {
      BitDown(a / 2, k - 1, i);
    }
  }

  lemma {:induction false} BitUp(a: nat, k: nat, i: nat)
    ensures Bit(Up(a, k), i) == (i >= k && Bit(a, i - k))
  {
    if k > 0 && i > 0 {
      BitUp(a, k - 1, i - 1);
    }
  }

  lemma {:induction false} BitLow(a: nat, k: nat, i: nat)
    ensures Bit(Low(a, k), i) == (i < k && Bit(a, i))
  {
    if k == 0 {
      BitOfZero(i);
    } else if i > 0 {
      BitLow(a / 2, k - 1, i - 1);
    }
  }

  /** Moving down divides, taking the low bits is the remainder, moving up multiplies. */
  lemma DownLowDivide(a: nat, k: nat)
    ensures Down(a, k) == a / Pow2(k) && Low(a, k) == a % Pow2(k)
  {
    DownLowSplit(a, k);
    DivUnique(a, Pow2(k), Down(a, k), Low(a, k));
  }

  lemma {:induction false} DownLowSplit(a: nat, k: nat)
    ensures a == Pow2(k) * Down(a, k) + Low(a, k) && Low(a, k) < Pow2(k)
  {
    if k > 0 {
      DownLowSplit(a / 2, k - 1);
      Associate(2, Pow2(k - 1), Down(a / 2, k - 1));
    }
  }

  lemma {:induction false} UpMultiplies(a: nat, k: nat)
    ensures Up(a, k) == a * Pow2(k)
  {
    if k > 0 {
      UpMultiplies(a, k - 1);
      Associate(a, 2, Pow2(k - 1));
      Associate(2, a, Pow2(k - 1));
    }
  }

  lemma DivDivide(a: nat, b: nat)
    requires b > 0
    ensures a == b * (a / b) + a % b && 0 <= a / b <= a && 0 <= a % b < b
  {
    MulMono(1, b, a / b);
  }

  lemma Associate(a: int, b: int, c: int)
    ensures a * (b * c) == (a * b) * c
  {}

  lemma Distribute(a: int, b: int, c: int)
    ensures a * (b + c) == a * b + a * c
  {}

  lemma MulMono(a: int, b: int, c: nat)
    requires a <= b
    ensures c * a <= c * b && a * c <= b * c
  {}

  lemma MulSteps(b: int, k: int)
    requires b >= 0
    ensures (k >= 1 ==> b * k >= b) && (k <= -1 ==> b * k <= -b)
  {
    if k >= 1 {
      MulMono(1, k, b);
    } else if k <= -1 {
      MulMono(k, -1, b);
    }
  }

  lemma DivUnique(a: int, b: int, q: int, r: int)
    requires b > 0 && a == b * q + r && 0 <= r < b
    ensures a / b == q && a % b == r
  {
    var k := a / b - q;
    assert a == b * (a / b) + a % b;
    Distribute(b, a / b, -q);
    assert b * k == r - a % b;
    MulSteps(b, k);
  }

  /** Two numbers with the same bits are the same number. */
  lemma {:induction false} SameBits(a: nat, b: nat)
    requires forall i: nat :: Bit(a, i) == Bit(b, i)
    ensures a == b
  {
    BitsBelow(a, b);
    BitsBelow(b, a);
  }

  /** A number whose bits all occur in another is at most that number. */
  lemma {:induction false} BitsBelow(a: nat, b: nat)
    requires forall i: nat :: Bit(a, i) ==> Bit(b, i)
    ensures a <= b
    decreases a
  {
    if a > 0 {
      forall i: nat
        ensures Bit(a / 2, i) ==> Bit(b / 2, i)
      {
        assert Bit(a, i + 1) == Bit(a / 2, i) && Bit(b, i + 1) == Bit(b / 2, i);
      }
      BitsBelow(a / 2, b / 2);
      assert Bit(a, 0) ==> Bit(b, 0);
    }
  }

  lemma {:induction false} OrBelow(a: nat, b: nat, n: nat)
    requires a < Pow2(n) && b < Pow2(n)
    ensures Or(a, b) < Pow2(n) && Xor(a, b) < Pow2(n)
  {
    if n > 0 {
      OrBelow(a / 2, b / 2, n - 1);
    }
  }

  function Or64(a: u64, b: u64): (r: u64)
    ensures r == Or(a, b)
  {
    Pow2Word();
    OrBelow(a, b, 64);
    Or(a, b)
  }

  function Xor64(a: u64, b: u64): (r: u64)
    ensures r == Xor(a, b)
  {
    Pow2Word();
    OrBelow(a, b, 64);
    Xor(a, b)
  }

  // ----- algebra used by the rewrites -----

  lemma AndMask(a: nat, k: nat)
    ensures And(a, Pow2(k) - 1) == Low(a, k)
  {
    forall i: nat
      ensures Bit(And(a, Pow2(k) - 1), i) == Bit(Low(a, k), i)
    {
      BitAnd(a, Pow2(k) - 1, i);
      BitLow(a, k, i);
      BitOfMask(k, i);
    }
    SameBits(And(a, Pow2(k) - 1), Low(a, k));
  }

  lemma {:induction false} BitOfMask(k: nat, i: nat)
    ensures Bit(Pow2(k) - 1, i) == (i < k)
  {
    if i < k {
      BitOfZero(i);
      BitNotWithin(0, k, i);
    } else {
      BitBeyond(Pow2(k) - 1, k, i);
    }
  }

  lemma {:induction false} AndCommutes(a: nat, b: nat)
    ensures And(a, b) == And(b, a)
  {
    if a != 0 && b != 0 {
      AndCommutes(a / 2, b / 2);
      assert (a % 2) * (b % 2) == (b % 2) * (a % 2);
    }
  }

  lemma {:induction false} OrCommutes(a: nat, b: nat)
    ensures Or(a, b) == Or(b, a)
    decreases a
  {
    if a != 0 && b != 0 {
      OrCommutes(a / 2, b / 2);
    }
  }

  lemma {:induction false} XorCommutes(a: nat, b: nat)
    ensures Xor(a, b) == Xor(b, a)
    decreases a
  {
    if a != 0 && b != 0 {
      XorCommutes(a / 2, b / 2);
    }
  }

  lemma {:induction false} AndOrXorSame(a: nat)
    ensures And(a, a) == a && Or(a, a) == a && Xor(a, a) == 0
  {
    if a != 0 {
      AndOrXorSame(a / 2);
      assert (a % 2) * (a % 2) == a % 2;
    }
  }

  lemma AndAllOnes(a: nat, k: nat, m: nat)
    requires m == Pow2(k) && a < m
    ensures And(a, m - 1) == a && And(m - 1, a) == a
  {
    forall i: nat
      ensures Bit(Low(a, k), i) == Bit(a, i)
    {
      BitLow(a, k, i);
      if i >= k {
        BitBeyond(a, k, i);
      }
    }
    SameBits(Low(a, k), a);
    AndMask(a, k);
    AndCommutes(a, m - 1);
  }

  lemma AndMax(a: u64)
    ensures And(a, MAX) == a && And(MAX, a) == a
  {
    Pow2Word();
    AndAllOnes(a, 64, WORD);
  }

  // ----- powers of two as divisors -----

  predicate IsPowerOfTwo(c: nat) {
    c == 1 || (c > 0 && c % 2 == 0 && IsPowerOfTwo(c / 2))
  }

  function TrailingZeros(c: nat): (k: nat) {
    if c == 0 || c % 2 == 1 then 0 else 1 + TrailingZeros(c / 2)
  }

  lemma {:induction false} PowerOfTwoValue(c: nat)
    requires IsPowerOfTwo(c)
    ensures c == Pow2(TrailingZeros(c))
  {
    if c != 1 {
      PowerOfTwoValue(c / 2);
    }
  }

  lemma Pow2Exponent(c: u64)
    requires IsPowerOfTwo(c)
    ensures TrailingZeros(c) < 64 && c == Pow2(TrailingZeros(c))
  {
    PowerOfTwoValue(c);
    if TrailingZeros(c) >= 64 {
      Pow2Mono(64, TrailingZeros(c));
      Pow2Word();
    }
  }

  // ----- two's complement -----

  function ToSigned(a: u64): int {
    if a < SIGN then a else a - WORD
  }

  function FromSigned(x: int): u64
    requires -SIGN <= x < SIGN
  {
    if x < 0 then x + WORD else x
  }

  function Abs(x: int): nat {
    if x < 0 then -x else x
  }

  /** Division rounding toward zero. */
  function TruncatedDiv(x: int, y: int): int
    requires y != 0
  {
    if (x < 0) == (y < 0) then Abs(x) / Abs(y) else -(Abs(x) / Abs(y))
  }
}
