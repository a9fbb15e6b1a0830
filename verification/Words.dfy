/**
32 bit machine words as integers, with bitwise operations defined bit by bit and the
masks that the library computes with them.
*/
module Words {
  import opened Arith

  type Word = x: int | 0 <= x < TWO32

  datatype Bitwise = And | Or | Xor

  function Bit(b: Bitwise, i: nat, j: nat): nat
    requires i < 2 && j < 2
  {
    match b
    case And => i * j
    case Or => if i + j > 0 then 1 else 0
    case Xor => (i + j) % 2
  }

  function Pow2(n: nat): nat
    ensures Pow2(n) > 0
  {
    if n == 0 then 1 else 2 * Pow2(n - 1)
  }

  /** The low n bits of a bitwise operation, bit by bit. */
  function Bits(b: Bitwise, x: nat, y: nat, n: nat): (r: nat)
    ensures r < Pow2(n)
  {
    if n == 0 then 0 else Bit(b, x % 2, y % 2) + 2 * Bits(b, x / 2, y / 2, n - 1)
  }

  lemma Powers()
    ensures Pow2(8) == 0x100 && Pow2(16) == 0x1_0000 && Pow2(32) == TWO32
  {
    assert Pow2(4) == 16;
    assert Pow2(12) == 16 * Pow2(8) && Pow2(16) == 16 * Pow2(12);
    assert Pow2(20) == 16 * Pow2(16) && Pow2(24) == 16 * Pow2(20);
    assert Pow2(28) == 16 * Pow2(24) && Pow2(32) == 16 * Pow2(28);
  }

  function BitsOfWord(b: Bitwise, x: Word, y: Word): Word {
    Powers();
    Bits(b, x, y, 32)
  }

  lemma ModTwice(x: nat, p: nat)
    requires p > 0
    ensures x % (2 * p) == x % 2 + 2 * (x / 2 % p)
  {
    var q, r := x / 2 / p, x / 2 % p;
    assert x / 2 == q * p + r;
    assert x == q * (2 * p) + (2 * r + x % 2);
    DivUnique(x, 2 * p, q, 2 * r + x % 2);
  }

  lemma SameParts(x: nat, y: nat, p: nat)
    requires p > 0 && x % 2 + 2 * (x / 2 % p) == y % 2 + 2 * (y / 2 % p)
    ensures x % 2 == y % 2 && x / 2 % p == y / 2 % p
  {
  }

  lemma BitsSplit(b: Bitwise, x: nat, y: nat, n: nat)
    requires n > 0
    ensures Bits(b, x, y, n) % 2 == Bit(b, x % 2, y % 2)
    ensures Bits(b, x, y, n) / 2 == Bits(b, x / 2, y / 2, n - 1)
  {
    assert 0 <= Bit(b, x % 2, y % 2) < 2;
  }

  /** The low k bits of a bitwise operation depend on the low k bits of its operands only. */
  lemma {:induction false} LowBits(b: Bitwise, x: nat, y: nat, x': nat, n: nat, k: nat)
    requires k <= n && x % Pow2(k) == x' % Pow2(k)
    ensures Bits(b, x, y, n) % Pow2(k) == Bits(b, x', y, n) % Pow2(k)
    decreases n
  {
    if k > 0 {
      var p := Pow2(k - 1);
      ModTwice(x, p);
      ModTwice(x', p);
      SameParts(x, x', p);
      LowBits(b, x / 2, y / 2, x' / 2, n - 1, k - 1);
      BitsSplit(b, x, y, n);
      BitsSplit(b, x', y, n);
      ModTwice(Bits(b, x, y, n), p);
      ModTwice(Bits(b, x', y, n), p);
    }
  }

  /** The bit at place i, counted from the least significant one. */
  function BitAt(x: nat, i: nat): (bit: nat)
    ensures bit < 2
  {
    x / Pow2(i) % 2
  }

  lemma HalvedBit(x: nat, i: nat)
    requires i > 0
    ensures BitAt(x, i) == BitAt(x / 2, i - 1)
  {
    var p := Pow2(i - 1);
    var q, r := x / 2 / p, x / 2 % p;
    assert x / 2 == q * p + r;
    assert x == q * (2 * p) + (2 * r + x % 2);
    DivUnique(x, 2 * p, q, 2 * r + x % 2);
  }

  /** Bit by bit: and is the conjunction, or the disjunction, xor the inequality of the bits. */
  lemma {:induction false} BitsAreBitwise(x: nat, y: nat, n: nat, i: nat)
    requires i < n
    ensures BitAt(Bits(And, x, y, n), i) == 1 <==> BitAt(x, i) == 1 && BitAt(y, i) == 1
    ensures BitAt(Bits(Or, x, y, n), i) == 1 <==> BitAt(x, i) == 1 || BitAt(y, i) == 1
    ensures BitAt(Bits(Xor, x, y, n), i) == 1 <==> BitAt(x, i) != BitAt(y, i)
    decreases i
  {
    BitsSplit(And, x, y, n);
    BitsSplit(Or, x, y, n);
    BitsSplit(Xor, x, y, n);
    if i == 0 {
      AndOrXor(x % 2, y % 2);
    } else {
      HalvedBit(x, i);
      HalvedBit(y, i);
      HalvedBit(Bits(And, x, y, n), i);
      HalvedBit(Bits(Or, x, y, n), i);
      HalvedBit(Bits(Xor, x, y, n), i);
      BitsAreBitwise(x / 2, y / 2, n - 1, i - 1);
    }
  }

  lemma AndOrXor(i: nat, j: nat)
    requires i < 2 && j < 2
    ensures Bit(And, i, j) == 1 <==> i == 1 && j == 1
    ensures Bit(Or, i, j) == 1 <==> i == 1 || j == 1
    ensures Bit(Xor, i, j) == 1 <==> i != j
  {
  }

  /** Reducing modulo 2^n keeps the bits below n. */
  lemma {:induction false} LowBitsStay(x: nat, n: nat, i: nat)
    requires i < n
    ensures BitAt(x % Pow2(n), i) == BitAt(x, i)
    decreases i
  {
    var p := Pow2(n - 1);
    ModTwice(x, p);
    var y := x % Pow2(n);
    assert y % 2 == x % 2 && y / 2 == x / 2 % p;
    if i > 0 {
      HalvedBit(x, i);
      HalvedBit(y, i);
      LowBitsStay(x / 2, n - 1, i - 1);
    }
  }

  /** x modulo 2^n, bit by bit. */
  function LowPart(x: nat, n: nat): nat {
    if n == 0 then 0 else x % 2 + 2 * LowPart(x / 2, n - 1)
  }

  lemma {:induction false} LowPartIsRemainder(x: nat, n: nat)
    ensures LowPart(x, n) == x % Pow2(n)
  {
    if n > 0 {
      LowPartIsRemainder(x / 2, n - 1);
      ModTwice(x, Pow2(n - 1));
    }
  }

  /** A mask of all ones keeps n bits. */
  lemma {:induction false} AllOnes(x: nat, n: nat)
    ensures Bits(And, x, Pow2(n) - 1, n) == LowPart(x, n)
  {
    if n > 0 {
      AllOnes(x / 2, n - 1);
      assert (Pow2(n) - 1) / 2 == Pow2(n - 1) - 1 && (Pow2(n) - 1) % 2 == 1;
    }
  }

  /** Clearing the low k bits with the mask 2^n - 2^k. */
  lemma {:induction false} MaskedBits(x: nat, n: nat, k: nat)
    requires k <= n
    ensures Pow2(k) <= Pow2(n)
    ensures Bits(And, x, Pow2(n) - Pow2(k), n) == LowPart(x, n) - LowPart(x, k)
    decreases n
  {
    if k == 0 {
      AllOnes(x, n);
    } else {
      MaskedBits(x / 2, n - 1, k - 1);
      var y := Pow2(n) - Pow2(k);
      assert y / 2 == Pow2(n - 1) - Pow2(k - 1) && y % 2 == 0;
    }
  }

  /** Masking with k ones keeps the low k bits. */
  lemma {:induction false} LowMask(x: nat, n: nat, k: nat)
    requires k <= n
    ensures Bits(And, x, Pow2(k) - 1, n) == LowPart(x, k)
    decreases n
  {
    if k == 0 {
      AndZero(x, n);
    } else {
      LowMask(x / 2, n - 1, k - 1);
      assert (Pow2(k) - 1) / 2 == Pow2(k - 1) - 1 && (Pow2(k) - 1) % 2 == 1;
    }
  }

  lemma {:induction false} AndZero(x: nat, n: nat)
    ensures Bits(And, x, 0, n) == 0
  {
    if n > 0 { AndZero(x / 2, n - 1); }
  }

  /** The bitwise or of the upper and the lower part of a word is their sum. */
  lemma {:induction false} DisjointOr(upper: nat, lower: nat, n: nat, k: nat)
    requires k <= n && lower < Pow2(k)
    ensures Bits(Or, upper * Pow2(k), lower, n) == LowPart(upper, n - k) * Pow2(k) + lower
    decreases n
  {
    if k == 0 {
      OrZero(upper, n);
    } else {
      var p := Pow2(k - 1);
      DisjointOr(upper, lower / 2, n - 1, k - 1);
      DoubledProduct(upper, p);
      DoubledProduct(LowPart(upper, n - k), p);
      assert n - 1 - (k - 1) == n - k;
    }
  }

  /** The or of two words without low bits is the or of their upper parts. */
  lemma {:induction false} ShiftedOr(u: nat, v: nat, n: nat, k: nat)
    requires k <= n
    ensures Bits(Or, u * Pow2(k), v * Pow2(k), n) == Bits(Or, u, v, n - k) * Pow2(k)
    decreases n
  {
    if k > 0 {
      var p := Pow2(k - 1);
      ShiftedOr(u, v, n - 1, k - 1);
      DoubledProduct(u, p);
      DoubledProduct(v, p);
      DoubledProduct(Bits(Or, u, v, n - k), p);
      assert n - 1 - (k - 1) == n - k;
    }
  }

  lemma OrOne(u: nat, n: nat)
    requires n > 0
    ensures Bits(Or, u, 1, n) == LowPart(u, n) + 1 - u % 2
  {
    OrZero(u / 2, n - 1);
  }

  lemma DoubledProduct(u: nat, p: nat)
    ensures u * (2 * p) % 2 == 0 && u * (2 * p) / 2 == u * p && u * (2 * p) == 2 * (u * p)
  {
    assert u * (2 * p) == 2 * (u * p);
  }

  lemma {:induction false} OrZero(x: nat, n: nat)
    ensures Bits(Or, x, 0, n) == LowPart(x, n)
  {
    if n > 0 { OrZero(x / 2, n - 1); }
  }

  /** x & -alignment for a power of two, in 32 bit arithmetic. */
  function Masked(x: Word, alignment: nat): Word
    requires 0 < alignment < TWO32
  {
    BitsOfWord(And, x, (0 - alignment) % TWO32)
  }

  lemma {:induction false} WholePart(x: nat, n: nat)
    requires x < Pow2(n)
    ensures LowPart(x, n) == x
  {
    if n > 0 { WholePart(x / 2, n - 1); }
  }

  lemma PowerBelowTwo32(k: nat)
    requires k < 32
    ensures 0 < Pow2(k) < TWO32
  {
    Powers();
    PowersIncrease(k, 32);
  }

  lemma MaskCuts(x: Word, k: nat, a: nat)
    requires k < 32 && a == Pow2(k) && 0 < a < TWO32
    ensures Masked(x, a) == x - LowPart(x, k)
  {
    NegatedAlignment(a);
    assert Pow2(32) == TWO32 by { Powers(); }
    MaskedBits(x, 32, k);
    WholePart(x, 32);
  }

  /** Masking with a negated power of two rounds down to a multiple of it. */
  lemma MaskRoundsDown(x: Word, k: nat)
    requires k < 32
    ensures 0 < Pow2(k) < TWO32 && Masked(x, Pow2(k)) == x - x % Pow2(k)
  {
    PowerBelowTwo32(k);
    MaskCuts(x, k, Pow2(k));
    LowPartIsRemainder(x, k);
  }

  lemma NegatedAlignment(a: nat)
    requires 0 < a < TWO32
    ensures (0 - a) % TWO32 == TWO32 - a
  {
  }

  lemma {:induction false} PowersIncrease(k: nat, n: nat)
    requires k < n
    ensures Pow2(k) < Pow2(n)
    decreases n
  {
    if k < n - 1 { PowersIncrease(k, n - 1); }
  }

  /** Powers of two divide each other. */
  lemma {:induction false} PowerDivides(k: nat, n: nat) returns (c: nat)
    requires k <= n
    ensures Pow2(n) == c * Pow2(k)
    decreases n
  {
    if k == n {
      c := 1;
    } else {
      var d := PowerDivides(k, n - 1);
      c := 2 * d;
    }
  }
}
