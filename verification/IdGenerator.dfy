// The SplitMix64 id generator: a 64-bit seed stepped by an odd constant, mixed, and printed as
// sixteen lower-case hexadecimal digits.
module IdGenerator {
  import opened Words

  type Id = string

  const INITIAL_SEED: nat := 0x1234_5678_9ABC_DEF0
  const GOLDEN: nat := 0x9E37_79B9_7F4A_7C15
  const FACTOR_A: nat := 0xBF58_476D_1CE4_E5B9
  const FACTOR_B: nat := 0x94D0_49BB_1331_11EB

  // The inverses of the three odd constants modulo the word size.
  const GOLDEN_INVERSE: nat := 0xF1DE_83E1_9937_733D
  const FACTOR_A_INVERSE: nat := 0x96DE_1B17_3F11_9089
  const FACTOR_B_INVERSE: nat := 0x3196_42B2_D24D_8EC3

  function NextSeed(seed: nat): nat {
    (seed + GOLDEN) % WORD
  }

  function Mix(seed: nat): nat {
    var a := MulWrap(XorShift(seed, 30), FACTOR_A);
    var b := MulWrap(XorShift(a, 27), FACTOR_B);
    XorShift(b, 31)
  }

  function Unmix(z: nat): nat {
    var b := MulWrap(UnXorShift(z, 31), FACTOR_B_INVERSE);
    var a := MulWrap(UnXorShift(b, 27), FACTOR_A_INVERSE);
    UnXorShift(a, 30)
  }

  lemma FactorAInverts(z: nat)
    requires IsWord(z)
    ensures MulWrap(MulWrap(z, FACTOR_A), FACTOR_A_INVERSE) == z
    ensures MulWrap(MulWrap(z, FACTOR_A_INVERSE), FACTOR_A) == z
  {
    MulInverse(z, FACTOR_A, FACTOR_A_INVERSE, 0x70C3_BCA7_8F27_F46C);
    MulInverse(z, FACTOR_A_INVERSE, FACTOR_A, 0x70C3_BCA7_8F27_F46C);
  }

  lemma FactorBInverts(z: nat)
    requires IsWord(z)
    ensures MulWrap(MulWrap(z, FACTOR_B), FACTOR_B_INVERSE) == z
    ensures MulWrap(MulWrap(z, FACTOR_B_INVERSE), FACTOR_B) == z
  {
    MulInverse(z, FACTOR_B, FACTOR_B_INVERSE, 0x1CD3_36ED_A85F_1453);
    MulInverse(z, FACTOR_B_INVERSE, FACTOR_B, 0x1CD3_36ED_A85F_1453);
  }

  // The mixing is a bijection on 64-bit words.
  lemma MixBijective(z: nat)
    requires IsWord(z)
    ensures IsWord(Mix(z)) && IsWord(Unmix(z))
    ensures Unmix(Mix(z)) == z
    ensures Mix(Unmix(z)) == z
  {
    MixStaysWord(z);
    UnmixStaysWord(z);
    UnmixMix(z);
    MixUnmix(z);
  }

  lemma MixStaysWord(z: nat)
    requires IsWord(z)
    ensures IsWord(Mix(z))
  {
    XorShiftStaysWord(z, 30);
    var a := MulWrap(XorShift(z, 30), FACTOR_A);
    XorShiftStaysWord(a, 27);
    XorShiftStaysWord(MulWrap(XorShift(a, 27), FACTOR_B), 31);
  }

  lemma UnmixStaysWord(z: nat)
    requires IsWord(z)
    ensures IsWord(Unmix(z))
  {
    XorShiftStaysWord(z, 31);
    var b := MulWrap(UnXorShift(z, 31), FACTOR_B_INVERSE);
    XorShiftStaysWord(b, 27);
    XorShiftStaysWord(MulWrap(UnXorShift(b, 27), FACTOR_A_INVERSE), 30);
  }

  lemma UnmixMix(z: nat)
    requires IsWord(z)
    ensures Unmix(Mix(z)) == z
  {
    var x := XorShift(z, 30);
    var a := MulWrap(x, FACTOR_A);
    var y := XorShift(a, 27);
    var b := MulWrap(y, FACTOR_B);
    XorShiftStaysWord(z, 30);
    XorShiftStaysWord(a, 27);
    UnXorShiftUndoes(b, 31);
    FactorBInverts(y);
    UnXorShiftUndoes(a, 27);
    FactorAInverts(x);
    UnXorShiftUndoes(z, 30);
  }

  lemma MixUnmix(z: nat)
    requires IsWord(z)
    ensures Mix(Unmix(z)) == z
  {
    var y := UnXorShift(z, 31);
    var b := MulWrap(y, FACTOR_B_INVERSE);
    var x := UnXorShift(b, 27);
    var a := MulWrap(x, FACTOR_A_INVERSE);
    XorShiftStaysWord(z, 31);
    XorShiftStaysWord(b, 27);
    XorShiftUndoes(a, 30);
    FactorAInverts(x);
    XorShiftUndoes(b, 27);
    FactorBInverts(y);
    XorShiftUndoes(z, 31);
  }

  // The seed after n ids have been drawn from it.
  function SeedAfter(seed: nat, n: nat): nat {
    (seed + n * GOLDEN) % WORD
  }

  lemma SeedAfterNext(seed: nat, n: nat)
    requires IsWord(seed)
    ensures SeedAfter(seed, 0) == seed
    ensures NextSeed(SeedAfter(seed, n)) == SeedAfter(seed, n + 1)
  {
    var total := seed + n * GOLDEN;
    ModShift(total % WORD + GOLDEN, total / WORD);
    assert total + GOLDEN == seed + (n + 1) * GOLDEN;
  }

  // The odd increment gives the full period 2^64.
  lemma SeedPeriod(seed: nat, m: nat, n: nat)
    requires IsWord(seed)
    ensures SeedAfter(seed, m) == SeedAfter(seed, n) <==> m % WORD == n % WORD
  {
    var q := 0x957B_BF35_006E_D677;
    if m % WORD == n % WORD {
      var k := m / WORD - n / WORD;
      assert m == n + k * WORD;
      assert seed + m * GOLDEN == seed + n * GOLDEN + (k * GOLDEN) * WORD;
      ModShift(seed + n * GOLDEN, k * GOLDEN);
    }
    if SeedAfter(seed, m) == SeedAfter(seed, n) {
      var k := (seed + m * GOLDEN) / WORD - (seed + n * GOLDEN) / WORD;
      assert m * GOLDEN == n * GOLDEN + k * WORD;
      ModShift(n * GOLDEN, k);
      MulInverse(m, GOLDEN, GOLDEN_INVERSE, q);
      MulInverse(n, GOLDEN, GOLDEN_INVERSE, q);
    }
  }

  function HexDigit(d: nat): (c: char)
    requires d < 16
  {
    "0123456789abcdef"[d]
  }

  // The low `width` hexadecimal digits of z, most significant first.
  function HexDigits(z: nat, width: nat): (s: string)
    ensures |s| == width
  {
    if width == 0 then "" else HexDigits(z / 16, width - 1) + [HexDigit(z % 16)]
  }

  function Hex(z: nat): string {
    HexDigits(z, 16)
  }

  ghost function Pow16(width: nat): nat {
    if width == 0 then 1 else 16 * Pow16(width - 1)
  }

  lemma HexDigitInjective(d: nat, e: nat)
    requires d < 16 && e < 16 && HexDigit(d) == HexDigit(e)
    ensures d == e
  {
  }

  lemma {:induction false} HexDigitsInjective(y: nat, z: nat, width: nat)
    requires y < Pow16(width) && z < Pow16(width)
    requires HexDigits(y, width) == HexDigits(z, width)
    ensures y == z
  {
    if width > 0 {
      var s, t := HexDigits(y, width), HexDigits(z, width);
      assert s[width - 1] == HexDigit(y % 16) && t[width - 1] == HexDigit(z % 16);
      assert s[..width - 1] == HexDigits(y / 16, width - 1);
      assert t[..width - 1] == HexDigits(z / 16, width - 1);
      HexDigitInjective(y % 16, z % 16);
      HexDigitsInjective(y / 16, z / 16, width - 1);
    }
  }

  lemma HexInjective(y: nat, z: nat)
    requires IsWord(y) && IsWord(z)
    ensures Hex(y) == Hex(z) <==> y == z
  {
    assert Pow16(8) == 0x1_0000_0000 by { assert Pow16(4) == 0x1_0000; }
    assert Pow16(16) == WORD by { assert Pow16(12) == 0x1_0000_0000_0000; }
    if Hex(y) == Hex(z) {
      HexDigitsInjective(y, z, 16);
    }
  }

  // Printed ids hold no quote, backslash or control character, so JSON output may leave them bare.
  lemma {:induction false} HexIsPlain(z: nat, width: nat)
    ensures forall c | c in HexDigits(z, width) :: c != '\"' && c != '\\' && c >= ' '
  {
    if width > 0 {
      HexIsPlain(z / 16, width - 1);
    }
  }

  // The id drawn from a seed.
  function IdFrom(seed: nat): Id {
    Hex(Mix(NextSeed(seed)))
  }

  lemma IdFromIssued(seed: nat, n: nat)
    requires IsWord(seed)
    ensures IdFrom(SeedAfter(seed, n)) == IssuedId(seed, n)
  {
    SeedAfterNext(seed, n);
  }

  // The n-th id (counting from 0) issued by an engine whose seed started at `seed`.
  function IssuedId(seed: nat, n: nat): Id {
    Hex(Mix(SeedAfter(seed, n + 1)))
  }

  // Two issued ids coincide exactly when 2^64 draws (or a multiple) lie between them.
  lemma IssuedIdsDistinct(seed: nat, m: nat, n: nat)
    requires IsWord(seed)
    ensures IssuedId(seed, m) == IssuedId(seed, n) <==> m % WORD == n % WORD
  {
    var y, z := SeedAfter(seed, m + 1), SeedAfter(seed, n + 1);
    MixBijective(y);
    MixBijective(z);
    HexInjective(Mix(y), Mix(z));
    SeedPeriod(seed, m + 1, n + 1);
    SuccessorResidue(m, n);
  }

  lemma SmallIssuedDistinct(seed: nat, m: nat, n: nat)
    requires IsWord(seed) && m < n < WORD
    ensures IssuedId(seed, m) != IssuedId(seed, n)
  {
    SmallResidues(m, n);
    IssuedIdsDistinct(seed, m, n);
  }

  lemma SmallResidues(m: nat, n: nat)
    requires m < n < WORD
    ensures m % WORD != n % WORD
  {
  }

  lemma SuccessorResidue(m: nat, n: nat)
    ensures (m + 1) % WORD == (n + 1) % WORD <==> m % WORD == n % WORD
  {
    ModShift(m % WORD + 1, m / WORD);
    ModShift(n % WORD + 1, n / WORD);
  }
}
