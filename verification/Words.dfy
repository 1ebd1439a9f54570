// 64-bit machine words as integers below 2^64: exclusive or, logical right shift and
// wrapping multiplication, with the inverses the id generator's mixing steps need.
module Words {

  const WORD: nat := 0x1_0000_0000_0000_0000

  ghost predicate IsWord(z: int) {
    0 <= z < WORD
  }

  // The exclusive or of the two low bits.
  function XorBit(a: nat, b: nat): (bit: nat)
    ensures bit < 2
  {
    if a % 2 == b % 2 then 0 else 1
  }

  function Xor(a: nat, b: nat): nat
    decreases a + b
  {
    if a == 0 && b == 0 then 0
    else 2 * Xor(a / 2, b / 2) + XorBit(a, b)
  }

  function ShiftRight(z: nat, k: nat): nat
    decreases k
  {
    if k == 0 then z else ShiftRight(z / 2, k - 1)
  }

  function Pow2(k: nat): (p: nat)
    ensures p > 0
  {
    if k == 0 then 1 else 2 * Pow2(k - 1)
  }

  // The low bit and the remaining bits of an exclusive or.
  lemma {:induction false} XorBits(a: nat, b: nat)
    ensures Xor(a, b) % 2 == XorBit(a, b)
    ensures Xor(a, b) / 2 == Xor(a / 2, b / 2)
  {
  }

  // x ^ y ^ (y ^ z) ^ z == x
  lemma {:induction false} XorCancels(a: nat, b: nat, c: nat)
    ensures Xor(Xor(Xor(a, b), Xor(b, c)), c) == a
    decreases a + b + c
  {
    if a + b + c > 0 {
      XorCancels(a / 2, b / 2, c / 2);
      XorBits(a, b);
      XorBits(b, c);
      XorBits(Xor(a, b), Xor(b, c));
      XorBits(Xor(Xor(a, b), Xor(b, c)), c);
    }
  }

  // (x ^ y ^ z) ^ (y ^ z) == x
  lemma {:induction false} XorCancelsTail(a: nat, b: nat, c: nat)
    ensures Xor(Xor(Xor(a, b), c), Xor(b, c)) == a
    decreases a + b + c
  {
    if a + b + c > 0 {
      XorCancelsTail(a / 2, b / 2, c / 2);
      XorBits(a, b);
      XorBits(b, c);
      XorBits(Xor(a, b), c);
      XorBits(Xor(Xor(a, b), c), Xor(b, c));
    }
  }

  lemma {:induction false} ShiftOfXor(a: nat, b: nat, k: nat)
    ensures ShiftRight(Xor(a, b), k) == Xor(ShiftRight(a, k), ShiftRight(b, k))
    decreases k
  {
    if k > 0 {
      XorBits(a, b);
      ShiftOfXor(a / 2, b / 2, k - 1);
    }
  }

  lemma {:induction false} ShiftOfShift(z: nat, j: nat, k: nat)
    ensures ShiftRight(ShiftRight(z, j), k) == ShiftRight(z, j + k)
    decreases j
  {
    if j > 0 {
      ShiftOfShift(z / 2, j - 1, k);
    }
  }

  lemma {:induction false} ShiftBelow(z: nat, k: nat)
    requires z < Pow2(k)
    ensures ShiftRight(z, k) == 0
    decreases k
  {
    if k > 0 {
      ShiftBelow(z / 2, k - 1);
    }
  }

  lemma {:induction false} XorBelow(a: nat, b: nat, k: nat)
    requires a < Pow2(k) && b < Pow2(k)
    ensures Xor(a, b) < Pow2(k)
    decreases k
  {
    if k > 0 {
      XorBelow(a / 2, b / 2, k - 1);
      XorBits(a, b);
    }
  }

  lemma {:induction false} ShiftNoLarger(z: nat, k: nat)
    ensures ShiftRight(z, k) <= z
    decreases k
  {
    if k > 0 {
      ShiftNoLarger(z / 2, k - 1);
    }
  }

  lemma Pow2Grows(j: nat, k: nat)
    requires j <= k
    ensures Pow2(j) <= Pow2(k)
    decreases k
  {
    if j < k {
      Pow2Grows(j, k - 1);
    }
  }

  lemma WordIsPow2()
    ensures WORD == Pow2(64)
  {
    assert Pow2(8) == 256;
    assert Pow2(16) == 65536 by { assert Pow2(12) == 4096; }
    assert Pow2(24) == 0x100_0000 by { assert Pow2(20) == 0x10_0000; }
    assert Pow2(32) == 0x1_0000_0000 by { assert Pow2(28) == 0x1000_0000; }
    assert Pow2(40) == 0x100_0000_0000 by { assert Pow2(36) == 0x10_0000_0000; }
    assert Pow2(48) == 0x1_0000_0000_0000 by { assert Pow2(44) == 0x1000_0000_0000; }
    assert Pow2(56) == 0x100_0000_0000_0000 by { assert Pow2(52) == 0x10_0000_0000_0000; }
    assert Pow2(60) == 0x1000_0000_0000_0000;
  }

  // z ^ (z >> k), the mixing step of the generator.
  function XorShift(z: nat, k: nat): nat {
    Xor(z, ShiftRight(z, k))
  }

  // Its inverse when three shifts clear the word: y ^ (y >> k) ^ (y >> 2k).
  function UnXorShift(y: nat, k: nat): nat {
    Xor(XorShift(y, k), ShiftRight(y, k + k))
  }

  lemma {:induction false} XorZero(a: nat)
    ensures Xor(a, 0) == a
  {
    if a > 0 {
      XorZero(a / 2);
      XorBits(a, 0);
    }
  }

  // A shift by the word size or more clears a word.
  lemma LongShiftVanishes(z: nat, j: nat)
    requires IsWord(z) && j >= 64
    ensures ShiftRight(z, j) == 0
  {
    WordIsPow2();
    Pow2Grows(64, j);
    ShiftBelow(z, j);
  }

  lemma XorShiftStaysWord(z: nat, k: nat)
    requires IsWord(z)
    ensures IsWord(XorShift(z, k)) && IsWord(UnXorShift(z, k))
  {
    WordIsPow2();
    ShiftNoLarger(z, k);
    ShiftNoLarger(z, k + k);
    XorBelow(z, ShiftRight(z, k), 64);
    XorBelow(XorShift(z, k), ShiftRight(z, k + k), 64);
  }

  lemma UnXorShiftUndoes(z: nat, k: nat)
    requires IsWord(z) && 22 <= k <= 64
    ensures UnXorShift(XorShift(z, k), k) == z
  {
    var b, c := ShiftRight(z, k), ShiftRight(z, k + k);
    var y := XorShift(z, k);
    assert ShiftRight(y, k) == Xor(b, c) by {
      ShiftOfXor(z, b, k);
      ShiftOfShift(z, k, k);
    }
    assert ShiftRight(y, k + k) == c by {
      ShiftOfXor(z, b, k + k);
      ShiftOfShift(z, k, k + k);
      LongShiftVanishes(z, k + (k + k));
      XorZero(c);
    }
    XorCancels(z, b, c);
  }

  lemma XorShiftUndoes(z: nat, k: nat)
    requires IsWord(z) && 22 <= k <= 64
    ensures XorShift(UnXorShift(z, k), k) == z
  {
    var b, c := ShiftRight(z, k), ShiftRight(z, k + k);
    var y := Xor(Xor(z, b), c);
    assert ShiftRight(y, k) == Xor(b, c) by {
      ShiftOfXor(Xor(z, b), c, k);
      ShiftOfXor(z, b, k);
      ShiftOfShift(z, k, k);
      ShiftOfShift(z, k + k, k);
      LongShiftVanishes(z, k + k + k);
      XorZero(Xor(b, c));
    }
    XorCancelsTail(z, b, c);
  }

  function MulWrap(z: nat, c: nat): nat {
    z * c % WORD
  }

  // Multiplying by d undoes multiplying by c when c * d is 1 modulo the word size.
  lemma MulInverse(z: int, c: int, d: int, q: int)
    requires c * d == 1 + q * WORD
    ensures z * c % WORD * d % WORD == z % WORD
  {
    var k, r := z * c / WORD, z * c % WORD;
    calc {
      r * d;
      (z * c - k * WORD) * d;
      z * (c * d) - k * d * WORD;
      z * (1 + q * WORD) - k * d * WORD;
      z + (z * q - k * d) * WORD;
    }
    ModShift(z, z * q - k * d);
  }

  lemma ModShift(z: int, m: int)
    ensures (z + m * WORD) % WORD == z % WORD
  {
    assert z + m * WORD - z % WORD == (z / WORD + m) * WORD;
  }
}
