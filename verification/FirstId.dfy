// The first id, worked out to the last digit.
module FirstId {
  import opened DrawLaws
  import opened Graph
  import opened IdGenerator
  import opened Linking
  import opened Words

  // ---- Exclusive or, one hexadecimal digit at a time

  function DigitXor(c: nat, d: nat): nat {
    8 * XorBit(c / 8, d / 8) + 4 * XorBit(c / 4, d / 4) + 2 * XorBit(c / 2, d / 2) + XorBit(c, d)
  }

  // Two words and their exclusive or.
  datatype Sum = Sum(a: nat, b: nat, x: nat)

  ghost predicate IsXor(s: Sum) {
    match s case Sum(a, b, x) => Xor(a, b) == x
  }

  lemma AppendBit(s: Sum, c: nat, d: nat) returns (r: Sum)
    requires IsXor(s)
    ensures IsXor(r) && r.a == 2 * s.a + c % 2 && r.b == 2 * s.b + d % 2 && r.x == 2 * s.x + XorBit(c, d)
  {
    r := Sum(2 * s.a + c % 2, 2 * s.b + d % 2, 2 * s.x + XorBit(c, d));
    XorBits(r.a, r.b);
    assert r.a / 2 == s.a && r.b / 2 == s.b && r.a % 2 == c % 2 && r.b % 2 == d % 2;
  }

  lemma BitsOf(c: nat)
    requires c < 16
    ensures c == 8 * (c / 8 % 2) + 4 * (c / 4 % 2) + 2 * (c / 2 % 2) + c % 2
  {
  }

  lemma Append(s: Sum, c: nat, d: nat) returns (r: Sum)
    requires IsXor(s) && c < 16 && d < 16
    ensures IsXor(r) && r.a == 16 * s.a + c && r.b == 16 * s.b + d && r.x == 16 * s.x + DigitXor(c, d)
  {
    BitsOf(c);
    BitsOf(d);
    r := AppendBit(s, c / 8, d / 8);
    r := AppendBit(r, c / 4, d / 4);
    r := AppendBit(r, c / 2, d / 2);
    r := AppendBit(r, c, d);
  }

  lemma XorA0(s: Sum) returns (r: Sum)
    requires IsXor(s)
    ensures IsXor(r) && r.a == 0x1_0000 * s.a + 0xB06B && r.b == 0x1_0000 * s.b + 0x0
    ensures r.x == 0x1_0000 * s.x + 0xB06B
  {
    r := Append(s, 11, 0);
    r := Append(r, 0, 0);
    r := Append(r, 6, 0);
    r := Append(r, 11, 0);
  }

  lemma XorA1(s: Sum) returns (r: Sum)
    requires IsXor(s)
    ensures IsXor(r) && r.a == 0x1_0000 * s.a + 0xD032 && r.b == 0x1_0000 * s.b + 0x2
    ensures r.x == 0x1_0000 * s.x + 0xD030
  {
    r := Append(s, 13, 0);
    r := Append(r, 0, 0);
    r := Append(r, 3, 0);
    r := Append(r, 2, 2);
  }

  lemma XorA2(s: Sum) returns (r: Sum)
    requires IsXor(s)
    ensures IsXor(r) && r.a == 0x1_0000 * s.a + 0x1A07 && r.b == 0x1_0000 * s.b + 0xC1AF
    ensures r.x == 0x1_0000 * s.x + 0xDBA8
  {
    r := Append(s, 1, 12);
    r := Append(r, 10, 1);
    r := Append(r, 0, 10);
    r := Append(r, 7, 15);
  }

  lemma XorA3(s: Sum) returns (r: Sum)
    requires IsXor(s)
    ensures IsXor(r) && r.a == 0x1_0000 * s.a + 0x5B05 && r.b == 0x1_0000 * s.b + 0x40C8
    ensures r.x == 0x1_0000 * s.x + 0x1BCD
  {
    r := Append(s, 5, 4);
    r := Append(r, 11, 0);
    r := Append(r, 0, 12);
    r := Append(r, 5, 8);
  }

  lemma XorA() returns (r: Sum)
    ensures IsXor(r) && r.a == 0xB06B_D032_1A07_5B05 && r.b == 0x2_C1AF_40C8 && r.x == 0xB06B_D030_DBA8_1BCD
  {
    r := XorA0(Sum(0, 0, 0));
    r := XorA1(r);
    r := XorA2(r);
    r := XorA3(r);
  }

  lemma XorB0(s: Sum) returns (r: Sum)
    requires IsXor(s)
    ensures IsXor(r) && r.a == 0x1_0000 * s.a + 0x5A70 && r.b == 0x1_0000 * s.b + 0x0
    ensures r.x == 0x1_0000 * s.x + 0x5A70
  {
    r := Append(s, 5, 0);
    r := Append(r, 10, 0);
    r := Append(r, 7, 0);
    r := Append(r, 0, 0);
  }

  lemma XorB1(s: Sum) returns (r: Sum)
    requires IsXor(s)
    ensures IsXor(r) && r.a == 0x1_0000 * s.a + 0xDDD8 && r.b == 0x1_0000 * s.b + 0xB
    ensures r.x == 0x1_0000 * s.x + 0xDDD3
  {
    r := Append(s, 13, 0);
    r := Append(r, 13, 0);
    r := Append(r, 13, 0);
    r := Append(r, 8, 11);
  }

  lemma XorB2(s: Sum) returns (r: Sum)
    requires IsXor(s)
    ensures IsXor(r) && r.a == 0x1_0000 * s.a + 0x4BEE && r.b == 0x1_0000 * s.b + 0x4E1B
    ensures r.x == 0x1_0000 * s.x + 0x5F5
  {
    r := Append(s, 4, 4);
    r := Append(r, 11, 14);
    r := Append(r, 14, 1);
    r := Append(r, 14, 11);
  }

  lemma XorB3(s: Sum) returns (r: Sum)
    requires IsXor(s)
    ensures IsXor(r) && r.a == 0x1_0000 * s.a + 0x7825 && r.b == 0x1_0000 * s.b + 0xBB09
    ensures r.x == 0x1_0000 * s.x + 0xC32C
  {
    r := Append(s, 7, 11);
    r := Append(r, 8, 11);
    r := Append(r, 2, 0);
    r := Append(r, 5, 9);
  }

  lemma XorB() returns (r: Sum)
    ensures IsXor(r) && r.a == 0x5A70_DDD8_4BEE_7825 && r.b == 0xB_4E1B_BB09 && r.x == 0x5A70_DDD3_05F5_C32C
  {
    r := XorB0(Sum(0, 0, 0));
    r := XorB1(r);
    r := XorB2(r);
    r := XorB3(r);
  }

  lemma XorC0(s: Sum) returns (r: Sum)
    requires IsXor(s)
    ensures IsXor(r) && r.a == 0x1_0000 * s.a + 0x1619 && r.b == 0x1_0000 * s.b + 0x0
    ensures r.x == 0x1_0000 * s.x + 0x1619
  {
    r := Append(s, 1, 0);
    r := Append(r, 6, 0);
    r := Append(r, 1, 0);
    r := Append(r, 9, 0);
  }

  lemma XorC1(s: Sum) returns (r: Sum)
    requires IsXor(s)
    ensures IsXor(r) && r.a == 0x1_0000 * s.a + 0x22C6 && r.b == 0x1_0000 * s.b + 0x0
    ensures r.x == 0x1_0000 * s.x + 0x22C6
  {
    r := Append(s, 2, 0);
    r := Append(r, 2, 0);
    r := Append(r, 12, 0);
    r := Append(r, 6, 0);
  }

  lemma XorC2(s: Sum) returns (r: Sum)
    requires IsXor(s)
    ensures IsXor(r) && r.a == 0x1_0000 * s.a + 0x69FC && r.b == 0x1_0000 * s.b + 0x2C32
    ensures r.x == 0x1_0000 * s.x + 0x45CE
  {
    r := Append(s, 6, 2);
    r := Append(r, 9, 12);
    r := Append(r, 15, 3);
    r := Append(r, 12, 2);
  }

  lemma XorC3(s: Sum) returns (r: Sum)
    requires IsXor(s)
    ensures IsXor(r) && r.a == 0x1_0000 * s.a + 0x1564 && r.b == 0x1_0000 * s.b + 0x458C
    ensures r.x == 0x1_0000 * s.x + 0x50E8
  {
    r := Append(s, 1, 4);
    r := Append(r, 5, 5);
    r := Append(r, 6, 8);
    r := Append(r, 4, 12);
  }

  lemma XorC() returns (r: Sum)
    ensures IsXor(r) && r.a == 0x1619_22C6_69FC_1564 && r.b == 0x2C32_458C && r.x == 0x1619_22C6_45CE_50E8
  {
    r := XorC0(Sum(0, 0, 0));
    r := XorC1(r);
    r := XorC2(r);
    r := XorC3(r);
  }

  lemma Powers()
    ensures Pow2(27) == 0x800_0000 && Pow2(30) == 0x4000_0000 && Pow2(31) == 0x8000_0000
  {
    assert Pow2(8) == 256;
    assert Pow2(16) == 65536 by { assert Pow2(12) == 4096; }
    assert Pow2(24) == 0x100_0000 by { assert Pow2(20) == 0x10_0000; }
    assert Pow2(27) == 0x800_0000;
  }

  lemma Shifted(z: nat, k: nat, m: nat, s: Sum)
    requires m == Pow2(k) && IsXor(s) && s.a == z && s.b == z / m
    ensures XorShift(z, k) == s.x
  {
    ShiftDivides(z, k);
  }

  lemma ShiftA(z: nat)
    requires z == 0xB06B_D032_1A07_5B05
    ensures XorShift(z, 30) == 0xB06B_D030_DBA8_1BCD
  {
    Powers();
    var r := XorA();
    Shifted(z, 30, 0x4000_0000, r);
  }

  lemma TimesA(x: nat)
    requires x == 0xB06B_D030_DBA8_1BCD
    ensures MulWrap(x, FACTOR_A) == 0x5A70_DDD8_4BEE_7825
  {
    assert x * FACTOR_A == 0x83DD_469D_1D3C_A95B * WORD + 0x5A70_DDD8_4BEE_7825;
  }

  lemma MixA(z: nat)
    requires z == 0xB06B_D032_1A07_5B05
    ensures MulWrap(XorShift(z, 30), FACTOR_A) == 0x5A70_DDD8_4BEE_7825
  {
    ShiftA(z);
    TimesA(XorShift(z, 30));
  }

  lemma ShiftB(z: nat)
    requires z == 0x5A70_DDD8_4BEE_7825
    ensures XorShift(z, 27) == 0x5A70_DDD3_05F5_C32C
  {
    Powers();
    var r := XorB();
    Shifted(z, 27, 0x800_0000, r);
  }

  lemma TimesB(x: nat)
    requires x == 0x5A70_DDD3_05F5_C32C
    ensures MulWrap(x, FACTOR_B) == 0x1619_22C6_69FC_1564
  {
    assert x * FACTOR_B == 0x3492_D5FE_8161_D8C2 * WORD + 0x1619_22C6_69FC_1564;
  }

  lemma MixB(z: nat)
    requires z == 0x5A70_DDD8_4BEE_7825
    ensures MulWrap(XorShift(z, 27), FACTOR_B) == 0x1619_22C6_69FC_1564
  {
    ShiftB(z);
    TimesB(XorShift(z, 27));
  }

  lemma MixC(z: nat)
    requires z == 0x1619_22C6_69FC_1564
    ensures XorShift(z, 31) == 0x1619_22C6_45CE_50E8
  {
    Powers();
    var r := XorC();
    Shifted(z, 31, 0x8000_0000, r);
  }

  lemma FirstMix(z: nat)
    requires z == 0xB06B_D032_1A07_5B05
    ensures Mix(z) == 0x1619_22C6_45CE_50E8
  {
    MixA(z);
    MixB(MulWrap(XorShift(z, 30), FACTOR_A));
    MixC(MulWrap(XorShift(MulWrap(XorShift(z, 30), FACTOR_A), 27), FACTOR_B));
  }

  // ---- Digits

  // A word, and its last digits as text.
  datatype Printed = Printed(z: nat, width: nat, text: string)

  ghost predicate Prints(p: Printed) {
    match p case Printed(z, width, text) => HexDigits(z, width) == text
  }

  lemma HexAppended(p: Printed, c: nat) returns (r: Printed)
    requires Prints(p) && c < 16
    ensures Prints(r) && r.z == 16 * p.z + c && r.width == p.width + 1 && r.text == p.text + [HexDigit(c)]
  {
    r := Printed(16 * p.z + c, p.width + 1, p.text + [HexDigit(c)]);
    assert r.z / 16 == p.z && r.z % 16 == c;
  }

  lemma Hex0(p: Printed) returns (r: Printed)
    requires Prints(p)
    ensures Prints(r) && r.z == 0x1_0000 * p.z + 0x1619 && r.width == p.width + 4 && r.text == p.text + "1619"
  {
    r := HexAppended(p, 1);
    r := HexAppended(r, 6);
    r := HexAppended(r, 1);
    r := HexAppended(r, 9);
  }

  lemma Hex1(p: Printed) returns (r: Printed)
    requires Prints(p)
    ensures Prints(r) && r.z == 0x1_0000 * p.z + 0x22C6 && r.width == p.width + 4 && r.text == p.text + "22c6"
  {
    r := HexAppended(p, 2);
    r := HexAppended(r, 2);
    r := HexAppended(r, 12);
    r := HexAppended(r, 6);
  }

  lemma Hex2(p: Printed) returns (r: Printed)
    requires Prints(p)
    ensures Prints(r) && r.z == 0x1_0000 * p.z + 0x45CE && r.width == p.width + 4 && r.text == p.text + "45ce"
  {
    r := HexAppended(p, 4);
    r := HexAppended(r, 5);
    r := HexAppended(r, 12);
    r := HexAppended(r, 14);
  }

  lemma Hex3(p: Printed) returns (r: Printed)
    requires Prints(p)
    ensures Prints(r) && r.z == 0x1_0000 * p.z + 0x50E8 && r.width == p.width + 4 && r.text == p.text + "50e8"
  {
    r := HexAppended(p, 5);
    r := HexAppended(r, 0);
    r := HexAppended(r, 14);
    r := HexAppended(r, 8);
  }

  lemma FirstHex(z: nat)
    requires z == 0x1619_22C6_45CE_50E8
    ensures Hex(z) == "1619" + "22c6" + "45ce" + "50e8"
  {
    var p := Hex0(Printed(0, 0, ""));
    assert p.text == "1619";
    p := Hex1(p);
    p := Hex2(p);
    p := Hex3(p);
  }

  lemma IdIs(seed: nat)
    requires seed == 0x1234_5678_9ABC_DEF0
    ensures IdFrom(seed) == "1619" + "22c6" + "45ce" + "50e8"
  {
    FirstMix(NextSeed(seed));
    FirstHex(Mix(NextSeed(seed)));
  }

  // The first id a new store issues.
  lemma FirstIdIs()
    ensures FreshId(EMPTY) == "1619" + "22c6" + "45ce" + "50e8"
  {
    IdIs(EMPTY.seed);
  }

  lemma MixedFirst(seed: nat, n: nat)
    requires seed == 0x1234_5678_9ABC_DEF0 && n == 1
    ensures Mix(SeedAfter(seed, n)) == 0x1619_22C6_45CE_50E8
  {
    FirstMix(SeedAfter(seed, n));
  }

  lemma HighBits(word: nat, y: real)
    requires word == 0x1619_22C6_45CE_50E8 && y == (word / 0x100_0000_0000) as real
    ensures y == 1448226.0
  {
  }

  // The first coordinate of the first hyperplane.
  lemma FirstDrawIs(k: nat)
    requires k == 0
    ensures Draw(k) == 1448226.0 / 8388608.0 - 1.0
  {
    var word := Mix(SeedAfter(INITIAL_SEED, k + 1));
    MixedFirst(INITIAL_SEED, k + 1);
    HighBits(word, (word / 0x100_0000_0000) as real);
    DrawIs(k);
  }
}
