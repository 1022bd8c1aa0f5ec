/** Standard checksums (section B.4 of RFC 3720), worked out on machine words. */
module CrcValues {
  import opened Crc32c

  // ----- machine words as words of the model -----

  predicate Odd(b: bv32) { b & 1 == 1 }

  function Half(b: bv32): bv32 { b >> 1 }

  function Both(a: bv32, b: bv32): bv32 { a ^ b }

  predicate In(b: bv32, i: nat) {
    if i == 0 then Odd(b) else In(Half(b), i - 1)
  }

  /** The positions of the one bits. */
  function Bits(b: bv32): Word { set i: nat | i < 32 && In(b, i) }

  lemma EightHalves(b: bv32)
    ensures Half(Half(Half(Half(Half(Half(Half(Half(b)))))))) == b >> 8
  {}

  lemma HigherByte(b: bv32, i: nat)
    ensures In(b, i + 8) == In(b >> 8, i)
  {
    hide Half, Odd;
    EightHalves(b);
    assert In(b, i + 8) == In(Half(Half(b)), i + 6) == In(Half(Half(Half(Half(b)))), i + 4);
    var c := Half(Half(Half(Half(b))));
    assert In(c, i + 4) == In(Half(Half(c)), i + 2) == In(Half(Half(Half(Half(c)))), i);
  }

  lemma {:induction false} InZero(i: nat)
    ensures !In(0, i)
  {
    if i > 0 { InZero(i - 1); }
  }

  lemma NoneBeyond(b: bv32)
    ensures !In(b, 32)
  {
    hide In;
    var b1 := b >> 8;
    var b2 := b1 >> 8;
    var b3 := b2 >> 8;
    HigherByte(b, 24);
    HigherByte(b1, 16);
    HigherByte(b2, 8);
    HigherByte(b3, 0);
    NothingLeft(b);
    InZero(0);
  }

  lemma NothingLeft(b: bv32)
    ensures (((b >> 8) >> 8) >> 8) >> 8 == 0
  {}

  lemma HalfBoth(a: bv32, b: bv32)
    ensures Half(Both(a, b)) == Both(Half(a), Half(b)) && (Odd(Both(a, b)) <==> Odd(a) != Odd(b))
  {}

  lemma {:induction false} InBoth(a: bv32, b: bv32, i: nat)
    ensures In(Both(a, b), i) <==> In(a, i) != In(b, i)
    decreases i
  {
    hide Both, Half, Odd;
    HalfBoth(a, b);
    if i > 0 { InBoth(Half(a), Half(b), i - 1); }
  }

  lemma XorBits(a: bv32, b: bv32)
    ensures Bits(Both(a, b)) == Xor(Bits(a), Bits(b))
  {
    hide In, Both;
    forall i: nat ensures In(Both(a, b), i) <==> In(a, i) != In(b, i) { InBoth(a, b, i); }
  }

  lemma ShrBits(b: bv32)
    ensures Bits(Half(b)) == Shr(Bits(b), 1) && (0 in Bits(b) <==> Odd(b))
  {
    hide Shr, Half, Odd;
    NoneBeyond(b);
    forall j: nat ensures j in Bits(Half(b)) <==> j in Shr(Bits(b), 1) {
      ShrBit(Bits(b), 1, j);
      assert In(b, j + 1) == In(Half(b), j);
    }
  }

  lemma OctetBits(b: bv8)
    ensures Narrow(Bits(b as bv32), 8)
  {
    hide In;
    var w := b as bv32;
    assert w >> 8 == 0;
    forall i: nat | i >= 8 ensures !In(w, i) {
      HigherByte(w, i - 8);
      InZero(i - 8);
    }
  }

  // ----- the two constants of the register -----

  /** The bits of the lowest byte. */
  lemma LowBits(b: bv32)
    ensures In(b, 0) == (b & 0x1 != 0) && In(b, 1) == (b & 0x2 != 0) && In(b, 2) == (b & 0x4 != 0)
    ensures In(b, 3) == (b & 0x8 != 0) && In(b, 4) == (b & 0x10 != 0) && In(b, 5) == (b & 0x20 != 0)
    ensures In(b, 6) == (b & 0x40 != 0) && In(b, 7) == (b & 0x80 != 0)
  {
    hide Half, Odd, In;
    var b2 := Half(Half(b));
    var b4 := Half(Half(b2));
    var b6 := Half(Half(b4));
    LowestTwo(b);
    LowestTwo(b2);
    LowestTwo(b4);
    LowestTwo(b6);
    Masks(b);
  }

  lemma LowestTwo(b: bv32)
    ensures In(b, 0) == Odd(b) && In(b, 1) == Odd(Half(b))
    ensures In(b, 2) == In(Half(Half(b)), 0) && In(b, 3) == In(Half(Half(b)), 1)
    ensures In(b, 4) == In(Half(Half(b)), 2) && In(b, 5) == In(Half(Half(b)), 3)
    ensures In(b, 6) == In(Half(Half(b)), 4) && In(b, 7) == In(Half(Half(b)), 5)
  {
    hide Half, Odd;
  }

  lemma Masks(b: bv32)
    ensures var b2 := Half(Half(b));
            var b4 := Half(Half(b2));
            var b6 := Half(Half(b4));
            && Odd(b) == (b & 0x1 != 0) && Odd(Half(b)) == (b & 0x2 != 0)
            && Odd(b2) == (b & 0x4 != 0) && Odd(Half(b2)) == (b & 0x8 != 0)
            && Odd(b4) == (b & 0x10 != 0) && Odd(Half(b4)) == (b & 0x20 != 0)
            && Odd(b6) == (b & 0x40 != 0) && Odd(Half(b6)) == (b & 0x80 != 0)
  {}

  /** A bit of one of the four bytes. */
  lemma OneOfFour(b: bv32, b1: bv32, b2: bv32, b3: bv32, i: nat)
    requires i < 32 && b1 == b >> 8 && b2 == b1 >> 8 && b3 == b2 >> 8
    ensures i >= 8 ==> In(b, i) == if i < 16 then In(b1, i - 8) else if i < 24 then In(b2, i - 16) else In(b3, i - 24)
  {
    hide In;
    if i >= 8 { HigherByte(b, i - 8); }
    if i >= 16 { HigherByte(b1, i - 16); }
    if i >= 24 { HigherByte(b2, i - 24); }
  }

  lemma PolynomialBits()
    ensures Bits(0x82f6_3b78) == POLYNOMIAL
  {
    hide In;
    LowBits(0x82f6_3b78);
    LowBits(0x82f6_3b);
    LowBits(0x82f6);
    LowBits(0x82);
    forall i: nat | i < 32 ensures In(0x82f6_3b78, i) <==> i in POLYNOMIAL {
      OneOfFour(0x82f6_3b78, 0x82f6_3b, 0x82f6, 0x82, i);
      Cases(i);
    }
  }

  lemma OnesBits()
    ensures Bits(0xffff_ffff) == ONES
  {
    hide In;
    LowBits(0xffff_ffff);
    LowBits(0xff_ffff);
    LowBits(0xffff);
    LowBits(0xff);
    forall i: nat | i < 32 ensures In(0xffff_ffff, i) {
      OneOfFour(0xffff_ffff, 0xff_ffff, 0xffff, 0xff, i);
      Cases(i);
    }
  }

  lemma Cases(i: nat)
    requires i < 32
    ensures i == 0 || i == 1 || i == 2 || i == 3 || i == 4 || i == 5 || i == 6 || i == 7 || i == 8 || i == 9 || i == 10
            || i == 11 || i == 12 || i == 13 || i == 14 || i == 15 || i == 16 || i == 17 || i == 18 || i == 19
              || i == 20 || i == 21
            || i == 22 || i == 23 || i == 24 || i == 25 || i == 26 || i == 27 || i == 28 || i == 29 || i == 30
              || i == 31
  {}

  // ----- the register on machine words -----

  function HalfStep(b: bv32): bv32 { if Odd(b) then Both(Half(b), 0x82f6_3b78) else Half(b) }

  function Step(b: bv32): bv32 {
    HalfStep(HalfStep(HalfStep(HalfStep(HalfStep(HalfStep(HalfStep(HalfStep(b))))))))
  }

  lemma HalfStepBits(b: bv32)
    ensures BitStep(Bits(b)) == Bits(HalfStep(b))
  {
    hide Xor, Shr, Bits, Half, Odd, Both;
    PolynomialBits();
    ShrBits(b);
    XorBits(Half(b), 0x82f6_3b78);
  }

  lemma StepBits(b: bv32)
    ensures ZeroByte(Bits(b)) == Bits(Step(b))
  {
    hide BitStep, Bits, HalfStep;
    var b1 := HalfStep(b);
    var b2 := HalfStep(b1);
    var b3 := HalfStep(b2);
    var b4 := HalfStep(b3);
    var b5 := HalfStep(b4);
    var b6 := HalfStep(b5);
    var b7 := HalfStep(b6);
    HalfStepBits(b);
    HalfStepBits(b1);
    HalfStepBits(b2);
    HalfStepBits(b3);
    HalfStepBits(b4);
    HalfStepBits(b5);
    HalfStepBits(b6);
    HalfStepBits(b7);
  }

  function OctetOf(b: bv8): Octet {
    OctetBits(b);
    Bits(b as bv32)
  }

  function Octets(data: seq<bv8>): seq<Octet> { seq(|data|, i requires 0 <= i < |data| => OctetOf(data[i])) }

  function Absorb(l: bv32, b: bv8): bv32 { Step(Both(l, b as bv32)) }

  lemma AbsorbBits(l: bv32, b: bv8)
    ensures ByteStep(Bits(l), OctetOf(b)) == Bits(Absorb(l, b))
  {
    hide ZeroByte, Step, Bits, Xor, Both;
    XorBits(l, b as bv32);
    StepBits(Both(l, b as bv32));
  }

  /** The register has the bits of `l` after the data. */
  ghost predicate After(data: seq<bv8>, l: bv32) { Run(ONES, Octets(data)) == Bits(l) }

  lemma OneMore(data: seq<bv8>, b: bv8, l: bv32, r: bv32)
    requires After(data, l) && r == Absorb(l, b)
    ensures After(data + [b], r)
  {
    hide ByteStep, OctetOf, Absorb, Bits, Run;
    assert Octets(data + [b]) == Octets(data) + [OctetOf(b)];
    RunLast(ONES, Octets(data), OctetOf(b));
    AbsorbBits(l, b);
  }

  lemma FourMore(data: seq<bv8>, a: bv8, b: bv8, c: bv8, d: bv8, l: bv32, l1: bv32, l2: bv32, l3: bv32, l4: bv32)
    requires After(data, l) && l1 == Absorb(l, a) && l2 == Absorb(l1, b) && l3 == Absorb(l2, c) && l4 == Absorb(l3, d)
    ensures After(data + [a, b, c, d], l4)
  {
    hide After, Absorb;
    OneMore(data, a, l, l1);
    OneMore(data + [a], b, l1, l2);
    OneMore(data + [a] + [b], c, l2, l3);
    OneMore(data + [a] + [b] + [c], d, l3, l4);
    assert data + [a] + [b] + [c] + [d] == data + [a, b, c, d];
  }

  lemma BeforeAll()
    ensures After([], 0xffff_ffff)
  {
    OnesBits();
  }

  /** The checksum is what the register comes to, inverted. */
  lemma AfterAll(data: seq<bv8>, l: bv32)
    requires After(data, l)
    ensures Crc({}, Octets(data)) == Bits(Both(l, 0xffff_ffff))
  {
    hide Xor, Run, Bits, Octets, Both;
    OnesBits();
    XorLaws(ONES, {}, {});
    XorBits(l, 0xffff_ffff);
  }

  // ----- 32 bytes of zeroes -----

  const ZEROES: seq<bv8> := [0, 0, 0, 0] + [0, 0, 0, 0] + [0, 0, 0, 0] + [0, 0, 0, 0] +
    [0, 0, 0, 0] + [0, 0, 0, 0] + [0, 0, 0, 0] + [0, 0, 0, 0]

  lemma ZeroesFrom0()
    ensures Absorb(0xffff_ffff, 0) == 0xad82_acae && Absorb(0xad82_acae, 0) == 0x0e9e_882d
    ensures Absorb(0x0e9e_882d, 0) == 0x9f9b_5c85 && Absorb(0x9f9b_5c85, 0) == 0xb798_b438
    ensures Absorb(0xb798_b438, 0) == 0xba8d_89ca && Absorb(0xba8d_89ca, 0) == 0xa8d5_8375
    ensures Absorb(0xa8d5_8375, 0) == 0x44c1_9592 && Absorb(0x44c1_9592, 0) == 0x73d7_4d75
  {}

  lemma ZeroesFrom8()
    ensures Absorb(0x73d7_4d75, 0) == 0x441a_975c && Absorb(0x441a_975c, 0) == 0x1c22_0f94
    ensures Absorb(0x1c22_0f94, 0) == 0x552e_4907 && Absorb(0x552e_4907, 0) == 0xd49f_4aa2
    ensures Absorb(0xd49f_4aa2, 0) == 0x43a4_5a1b && Absorb(0x43a4_5a1b, 0) == 0x8994_c80e
    ensures Absorb(0x8994_c80e, 0) == 0xacf1_2bef && Absorb(0xacf1_2bef, 0) == 0xbd8f_6515
  {}

  lemma ZeroesFrom16()
    ensures Absorb(0xbd8f_6515, 0) == 0x2512_5c16 && Absorb(0x2512_5c16, 0) == 0x36da_32db
    ensures Absorb(0x36da_32db, 0) == 0x4a6c_90a2 && Absorb(0x4a6c_90a2, 0) == 0x433a_a9c1
    ensures Absorb(0x433a_a9c1, 0) == 0x31a5_9f6e && Absorb(0x31a5_9f6e, 0) == 0xcd8f_89da
    ensures Absorb(0xcd8f_89da, 0) == 0xb8fc_461a && Absorb(0xb8fc_461a, 0) == 0x7b04_1311
  {}

  lemma ZeroesFrom24()
    ensures Absorb(0x7b04_1311, 0) == 0xe24e_407f && Absorb(0xe24e_407f, 0) == 0x2f69_2669
    ensures Absorb(0x2f69_2669, 0) == 0x195b_2188 && Absorb(0x195b_2188, 0) == 0x0836_3896
    ensures Absorb(0x0836_3896, 0) == 0xb401_2dc7 && Absorb(0xb401_2dc7, 0) == 0x17f3_4302
    ensures Absorb(0x17f3_4302, 0) == 0xe12c_83b4 && Absorb(0xe12c_83b4, 0) == 0x756e_c955
  {}

  lemma ZeroesChecksum()
    ensures Crc({}, Octets(ZEROES)) == Bits(0x8a91_36aa)
  {
    hide After, Octets, Bits, Crc, Absorb;
    BeforeAll();
    ZeroesFrom0();
    ZeroesFrom8();
    ZeroesFrom16();
    ZeroesFrom24();
    FourMore([], 0, 0, 0, 0, 0xffff_ffff, 0xad82_acae, 0x0e9e_882d, 0x9f9b_5c85, 0xb798_b438);
    var d1: seq<bv8> := [0, 0, 0, 0];
    assert [] + [0, 0, 0, 0] == d1;
    FourMore(d1, 0, 0, 0, 0, 0xb798_b438, 0xba8d_89ca, 0xa8d5_8375, 0x44c1_9592, 0x73d7_4d75);
    var d2: seq<bv8> := d1 + [0, 0, 0, 0];
    FourMore(d2, 0, 0, 0, 0, 0x73d7_4d75, 0x441a_975c, 0x1c22_0f94, 0x552e_4907, 0xd49f_4aa2);
    var d3: seq<bv8> := d2 + [0, 0, 0, 0];
    FourMore(d3, 0, 0, 0, 0, 0xd49f_4aa2, 0x43a4_5a1b, 0x8994_c80e, 0xacf1_2bef, 0xbd8f_6515);
    var d4: seq<bv8> := d3 + [0, 0, 0, 0];
    FourMore(d4, 0, 0, 0, 0, 0xbd8f_6515, 0x2512_5c16, 0x36da_32db, 0x4a6c_90a2, 0x433a_a9c1);
    var d5: seq<bv8> := d4 + [0, 0, 0, 0];
    FourMore(d5, 0, 0, 0, 0, 0x433a_a9c1, 0x31a5_9f6e, 0xcd8f_89da, 0xb8fc_461a, 0x7b04_1311);
    var d6: seq<bv8> := d5 + [0, 0, 0, 0];
    FourMore(d6, 0, 0, 0, 0, 0x7b04_1311, 0xe24e_407f, 0x2f69_2669, 0x195b_2188, 0x0836_3896);
    var d7: seq<bv8> := d6 + [0, 0, 0, 0];
    FourMore(d7, 0, 0, 0, 0, 0x0836_3896, 0xb401_2dc7, 0x17f3_4302, 0xe12c_83b4, 0x756e_c955);
    AfterAll(ZEROES, 0x756e_c955);
  }

  // ----- 32 bytes of increasing values -----

  const INCREASING: seq<bv8> := [0, 1, 2, 3] + [4, 5, 6, 7] + [8, 9, 10, 11] + [12, 13, 14, 15] +
    [16, 17, 18, 19] + [20, 21, 22, 23] + [24, 25, 26, 27] + [28, 29, 30, 31]

  lemma IncreasingFrom0()
    ensures Absorb(0xffff_ffff, 0) == 0xad82_acae && Absorb(0xad82_acae, 1) == 0xfcf5_0b2e
    ensures Absorb(0xfcf5_0b2e, 2) == 0x6d02_b405 && Absorb(0x6d02_b405, 3) == 0x26cc_e55c
    ensures Absorb(0x26cc_e55c, 4) == 0xdbda_4ef9 && Absorb(0xdbda_4ef9, 5) == 0xbef6_7aeb
    ensures Absorb(0xbef6_7aeb, 6) == 0x5ca6_12b3 && Absorb(0x5ca6_12b3, 7) == 0x75d3_43c4
  {}

  lemma IncreasingFrom8()
    ensures Absorb(0x75d3_43c4, 8) == 0x8ebb_3a57 && Absorb(0x8ebb_3a57, 9) == 0xfdd3_dece
    ensures Absorb(0xfdd3_dece, 10) == 0x04ea_6205 && Absorb(0x04ea_6205, 11) == 0xac7c_5545
    ensures Absorb(0xac7c_5545, 12) == 0x3965_ba25 && Absorb(0x3965_ba25, 13) == 0xaa5d_b3ab
    ensures Absorb(0xaa5d_b3ab, 14) == 0x9710_fc09 && Absorb(0x9710_fc09, 15) == 0x2636_f714
  {}

  lemma IncreasingFrom16()
    ensures Absorb(0x2636_f714, 16) == 0xc7bc_a1e8 && Absorb(0xc7bc_a1e8, 17) == 0x8b1b_0818
    ensures Absorb(0x8b1b_0818, 18) == 0x6b69_3330 && Absorb(0x6b69_3330, 19) == 0x3386_1419
    ensures Absorb(0x3386_1419, 20) == 0xbf1b_cac7 && Absorb(0xbf1b_cac7, 21) == 0x3257_8a96
    ensures Absorb(0x3257_8a96, 22) == 0x82c4_6cf2 && Absorb(0x82c4_6cf2, 23) == 0xd643_786a
  {}

  lemma IncreasingFrom24()
    ensures Absorb(0xd643_786a, 24) == 0x9075_6782 && Absorb(0x9075_6782, 25) == 0x0bb1_224b
    ensures Absorb(0x0bb1_224b, 26) == 0xa345_e8f2 && Absorb(0xa345_e8f2, 27) == 0x9b21_363e
    ensures Absorb(0x9b21_363e, 28) == 0xc11d_df1f && Absorb(0xc11d_df1f, 29) == 0xe1fa_6d28
    ensures Absorb(0xe1fa_6d28, 30) == 0x16a3_5434 && Absorb(0x16a3_5434, 31) == 0xb922_86b1
  {}

  lemma IncreasingChecksum()
    ensures Crc({}, Octets(INCREASING)) == Bits(0x46dd_794e)
  {
    hide After, Octets, Bits, Crc, Absorb;
    BeforeAll();
    IncreasingFrom0();
    IncreasingFrom8();
    IncreasingFrom16();
    IncreasingFrom24();
    FourMore([], 0, 1, 2, 3, 0xffff_ffff, 0xad82_acae, 0xfcf5_0b2e, 0x6d02_b405, 0x26cc_e55c);
    var d1: seq<bv8> := [0, 1, 2, 3];
    assert [] + [0, 1, 2, 3] == d1;
    FourMore(d1, 4, 5, 6, 7, 0x26cc_e55c, 0xdbda_4ef9, 0xbef6_7aeb, 0x5ca6_12b3, 0x75d3_43c4);
    var d2: seq<bv8> := d1 + [4, 5, 6, 7];
    FourMore(d2, 8, 9, 10, 11, 0x75d3_43c4, 0x8ebb_3a57, 0xfdd3_dece, 0x04ea_6205, 0xac7c_5545);
    var d3: seq<bv8> := d2 + [8, 9, 10, 11];
    FourMore(d3, 12, 13, 14, 15, 0xac7c_5545, 0x3965_ba25, 0xaa5d_b3ab, 0x9710_fc09, 0x2636_f714);
    var d4: seq<bv8> := d3 + [12, 13, 14, 15];
    FourMore(d4, 16, 17, 18, 19, 0x2636_f714, 0xc7bc_a1e8, 0x8b1b_0818, 0x6b69_3330, 0x3386_1419);
    var d5: seq<bv8> := d4 + [16, 17, 18, 19];
    FourMore(d5, 20, 21, 22, 23, 0x3386_1419, 0xbf1b_cac7, 0x3257_8a96, 0x82c4_6cf2, 0xd643_786a);
    var d6: seq<bv8> := d5 + [20, 21, 22, 23];
    FourMore(d6, 24, 25, 26, 27, 0xd643_786a, 0x9075_6782, 0x0bb1_224b, 0xa345_e8f2, 0x9b21_363e);
    var d7: seq<bv8> := d6 + [24, 25, 26, 27];
    FourMore(d7, 28, 29, 30, 31, 0x9b21_363e, 0xc11d_df1f, 0xe1fa_6d28, 0x16a3_5434, 0xb922_86b1);
    AfterAll(INCREASING, 0xb922_86b1);
  }
}
