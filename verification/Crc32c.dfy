/** CRC32C: four interleaved lanes compute what one byte at a time computes. */
module Crc32c {

  /** A word is the set of the positions of its one bits (0 is the least significant). */
  type Word = set<nat>

  ghost predicate Narrow(w: Word, bits: nat) { forall i :: i in w ==> i < bits }

  type Octet = w: Word | forall i :: i in w ==> i < 8 witness {}

  const ONES: Word := set i: nat | 0 <= i < 32

  /** The bits of 0x82f63b78. */
  const POLYNOMIAL: Word := {31, 25, 23, 22, 21, 20, 18, 17, 13, 12, 11, 9, 8, 6, 5, 4, 3}

  function Xor(a: Word, b: Word): Word { (a - b) + (b - a) }

  function Shr(w: Word, k: nat): Word { set i | i in w && i >= k :: i - k }

  function Shl(w: Word, k: nat): Word { set i | i in w :: i + k }

  lemma ShrBit(w: Word, k: nat, j: nat)
    ensures j in Shr(w, k) <==> j + k in w
  {
    if j + k in w { assert (j + k) - k in Shr(w, k); }
  }

  lemma ShlBit(w: Word, k: nat, j: nat)
    ensures j in Shl(w, k) <==> j >= k && j - k in w
  {
    if j >= k && j - k in w { assert (j - k) + k in Shl(w, k); }
  }

  /** The low `k` bits. */
  function Low(w: Word, k: nat): Word { set i | i in w && i < k }

  // ----- the register -----

  /** One bit of the reflected division by the Castagnoli polynomial (section 12.1 of RFC 3720). */
  function BitStep(w: Word): Word {
    if 0 in w then Xor(Shr(w, 1), POLYNOMIAL) else Shr(w, 1)
  }

  /** The register advanced by one zero byte. */
  function ZeroByte(w: Word): Word {
    BitStep(BitStep(BitStep(BitStep(BitStep(BitStep(BitStep(BitStep(w))))))))
  }

  /** The register advanced by `n` zero bytes. */
  function Advance(w: Word, n: nat): Word {
    if n == 0 then w else ZeroByte(Advance(w, n - 1))
  }

  /** The register after one byte of data. */
  function ByteStep(w: Word, b: Octet): Word { ZeroByte(Xor(w, b)) }

  function Run(w: Word, data: seq<Octet>): Word {
    if data == [] then w else ByteStep(Run(w, data[..|data|-1]), data[|data|-1])
  }

  /** The checksum of what `crc` stands for followed by `data`. */
  function Crc(crc: Word, data: seq<Octet>): Word {
    Xor(Run(Xor(crc, ONES), data), ONES)
  }

  // ----- exclusive or -----

  lemma XorLaws(a: Word, b: Word, c: Word)
    ensures Xor(a, {}) == a && Xor({}, a) == a && Xor(a, a) == {}
    ensures Xor(a, b) == Xor(b, a)
    ensures Xor(Xor(a, b), c) == Xor(a, Xor(b, c))
  {}

  /** The middle two of four change places. */
  lemma XorSwap(a: Word, b: Word, c: Word, d: Word)
    ensures Xor(Xor(a, b), Xor(c, d)) == Xor(Xor(a, c), Xor(b, d))
  {
    hide Xor;
    XorLaws(a, b, Xor(c, d));
    XorLaws(b, c, d);
    XorLaws(c, b, d);
    XorLaws(a, c, Xor(b, d));
  }

  // ----- linearity -----

  lemma ShrLinear(a: Word, b: Word, k: nat)
    ensures Shr(Xor(a, b), k) == Xor(Shr(a, k), Shr(b, k))
  {
    hide Shr;
    forall j: nat ensures j in Shr(Xor(a, b), k) <==> j in Xor(Shr(a, k), Shr(b, k)) {
      ShrBit(Xor(a, b), k, j);
      ShrBit(a, k, j);
      ShrBit(b, k, j);
    }
  }

  lemma XorBit(a: Word, b: Word, i: nat)
    ensures i in Xor(a, b) <==> (i in a) != (i in b)
  {}

  lemma BitStepLinear(a: Word, b: Word)
    ensures BitStep(Xor(a, b)) == Xor(BitStep(a), BitStep(b))
  {
    hide Xor, Shr;
    ShrLinear(a, b, 1);
    XorBit(a, b, 0);
    var x, y, p := Shr(a, 1), Shr(b, 1), POLYNOMIAL;
    XorLaws(x, y, p);
    XorLaws(x, p, y);
    XorLaws(y, p, p);
    XorSwap(x, p, y, p);
    XorLaws(p, y, x);
    XorLaws(Xor(x, y), p, p);
  }

  lemma ZeroByteLinear(a: Word, b: Word)
    ensures ZeroByte(Xor(a, b)) == Xor(ZeroByte(a), ZeroByte(b))
  {
    hide BitStep, Xor;
    var a1, b1 := BitStep(a), BitStep(b);
    var a2, b2 := BitStep(a1), BitStep(b1);
    var a3, b3 := BitStep(a2), BitStep(b2);
    var a4, b4 := BitStep(a3), BitStep(b3);
    var a5, b5 := BitStep(a4), BitStep(b4);
    var a6, b6 := BitStep(a5), BitStep(b5);
    var a7, b7 := BitStep(a6), BitStep(b6);
    BitStepLinear(a, b);
    BitStepLinear(a1, b1);
    BitStepLinear(a2, b2);
    BitStepLinear(a3, b3);
    BitStepLinear(a4, b4);
    BitStepLinear(a5, b5);
    BitStepLinear(a6, b6);
    BitStepLinear(a7, b7);
  }

  lemma {:induction false} AdvanceLinear(a: Word, b: Word, n: nat)
    ensures Advance(Xor(a, b), n) == Xor(Advance(a, n), Advance(b, n))
  {
    hide ZeroByte, Xor;
    if n > 0 {
      AdvanceLinear(a, b, n - 1);
      ZeroByteLinear(Advance(a, n - 1), Advance(b, n - 1));
    }
  }

  lemma {:induction false} AdvanceMore(w: Word, m: nat, n: nat)
    ensures Advance(Advance(w, m), n) == Advance(w, m + n)
  {
    hide ZeroByte;
    if n > 0 { AdvanceMore(w, m, n - 1); }
  }

  lemma ShrShr(w: Word, k: nat, l: nat)
    ensures Shr(Shr(w, k), l) == Shr(w, k + l)
  {
    hide Shr;
    forall j: nat ensures j in Shr(Shr(w, k), l) <==> j in Shr(w, k + l) {
      ShrBit(Shr(w, k), l, j);
      ShrBit(w, k, j + l);
      ShrBit(w, k + l, j);
    }
  }

  lemma ShiftEven(w: Word, k: nat)
    requires k !in w && forall i :: i in w ==> i >= k
    ensures BitStep(Shr(w, k)) == Shr(w, k + 1)
  {
    hide Shr;
    ShrBit(w, k, 0);
    ShrShr(w, k, 1);
  }

  /** A register whose low byte is zero is shifted. */
  lemma ShiftByte(w: Word)
    requires forall i :: i in w ==> i >= 8
    ensures ZeroByte(w) == Shr(w, 8)
  {
    hide BitStep, Shr;
    ShrNone(w);
    ShiftEven(w, 0);
    ShiftEven(w, 1);
    ShiftEven(w, 2);
    ShiftEven(w, 3);
    ShiftEven(w, 4);
    ShiftEven(w, 5);
    ShiftEven(w, 6);
    ShiftEven(w, 7);
  }

  lemma ShrNone(w: Word)
    ensures Shr(w, 0) == w
  {
    hide Shr;
    forall j: nat ensures j in Shr(w, 0) <==> j in w { ShrBit(w, 0, j); }
  }

  // ----- the steps of the code -----

  function ByteTable(c: Octet): Word { ZeroByte(c) }

  /** A byte of the register, advanced by 16 zero bytes; table 3 is for the low byte. */
  function StrideTable3(c: Octet): Word { Advance(c, 16) }
  function StrideTable2(c: Octet): Word { Advance(Shl(c, 8), 16) }
  function StrideTable1(c: Octet): Word { Advance(Shl(c, 16), 16) }
  function StrideTable0(c: Octet): Word { Advance(Shl(c, 24), 16) }

  /** Byte `k` of a word. */
  function ByteOf(w: Word, k: nat): Octet { Low(Shr(w, 8 * k), 8) }

  /** Four bytes, the least significant one first. */
  function ReadUint32LE(data: seq<Octet>, p: nat): Word
    requires p + 4 <= |data|
  {
    data[p] + Shl(data[p + 1], 8) + Shl(data[p + 2], 16) + Shl(data[p + 3], 24)
  }

  /** A register is its low byte and the rest. */
  lemma SplitByte(w: Word)
    ensures w == Xor(ByteOf(w, 0), w - Low(w, 8)) && Shr(w - Low(w, 8), 8) == Shr(w, 8)
  {
    hide Shr;
    ShrNone(w);
    forall j: nat ensures j in Shr(w - Low(w, 8), 8) <==> j in Shr(w, 8) {
      ShrBit(w - Low(w, 8), 8, j);
      ShrBit(w, 8, j);
    }
  }

  /** The table step is one zero byte. */
  lemma TableStep(w: Word)
    ensures Xor(ByteTable(ByteOf(w, 0)), Shr(w, 8)) == ZeroByte(w)
  {
    hide Shr, ZeroByte, Xor;
    SplitByte(w);
    ZeroByteLinear(ByteOf(w, 0), w - Low(w, 8));
    ShiftByte(w - Low(w, 8));
  }

  lemma Step1(l: Word, b: Octet)
    ensures Xor(ByteTable(Xor(ByteOf(l, 0), b)), Shr(l, 8)) == ByteStep(l, b)
  {
    hide Shr, ZeroByte;
    var w := Xor(l, b);
    ShrNone(l);
    ShrNone(w);
    assert ByteOf(w, 0) == Xor(ByteOf(l, 0), b);
    forall j: nat ensures j in Shr(w, 8) <==> j in Shr(l, 8) {
      ShrBit(w, 8, j);
      ShrBit(l, 8, j);
    }
    TableStep(w);
  }

  /** A word is its four bytes. */
  lemma FourBytes(w: Word)
    requires Narrow(w, 32)
    ensures w == Xor(Xor(ByteOf(w, 0), Shl(ByteOf(w, 1), 8)), Xor(Shl(ByteOf(w, 2), 16), Shl(ByteOf(w, 3), 24)))
  {
    hide Shr, Shl;
    var r := Xor(Xor(ByteOf(w, 0), Shl(ByteOf(w, 1), 8)), Xor(Shl(ByteOf(w, 2), 16), Shl(ByteOf(w, 3), 24)));
    forall i: nat ensures i in w <==> i in r { FourBytesBit(w, i); }
  }

  lemma FourBytesBit(w: Word, i: nat)
    requires Narrow(w, 32)
    ensures i in w <==> i in Xor(Xor(ByteOf(w, 0), Shl(ByteOf(w, 1), 8)),
            Xor(Shl(ByteOf(w, 2), 16), Shl(ByteOf(w, 3), 24)))
  {
    hide Shr, Shl;
    ShrBit(w, 0, i);
    ShlBit(ByteOf(w, 1), 8, i);
    ShlBit(ByteOf(w, 2), 16, i);
    ShlBit(ByteOf(w, 3), 24, i);
    if i >= 8 { ShrBit(w, 8, i - 8); }
    if i >= 16 { ShrBit(w, 16, i - 16); }
    if i >= 24 { ShrBit(w, 24, i - 24); }
  }

  /** The four stride tables together advance a word by 16 zero bytes. */
  function Stride(w: Word): Word {
    Xor(Xor(StrideTable3(ByteOf(w, 0)), StrideTable2(ByteOf(w, 1))),
      Xor(StrideTable1(ByteOf(w, 2)), StrideTable0(ByteOf(w, 3))))
  }

  lemma StrideAdvances(w: Word)
    requires Narrow(w, 32)
    ensures Stride(w) == Advance(w, 16)
  {
    hide Shr, Shl, Xor, Advance, ByteOf;
    var a, b, c, d := ByteOf(w, 0), Shl(ByteOf(w, 1), 8), Shl(ByteOf(w, 2), 16), Shl(ByteOf(w, 3), 24);
    FourBytes(w);
    AdvanceLinear(Xor(a, b), Xor(c, d), 16);
    AdvanceLinear(a, b, 16);
    AdvanceLinear(c, d, 16);
  }

  // ----- words and lanes -----

  lemma {:induction false} RunConcat(w: Word, a: seq<Octet>, b: seq<Octet>)
    ensures Run(w, a + b) == Run(Run(w, a), b)
  {
    hide ByteStep;
    if b == [] {
      assert a + b == a;
    } else {
      var init := b[..|b|-1];
      RunConcat(w, a, init);
      assert (a + b)[..|a + b|-1] == a + init && (a + b)[|a + b|-1] == b[|b|-1];
    }
  }

  /** A byte that is still `k` places away from the end of the register. */
  lemma {:induction false} AdvanceByte(b: Octet, k: nat)
    ensures Advance(Shl(b, 8 * k), k) == b
  {
    hide ZeroByte, Shl, Shr;
    if k == 0 {
      forall j: nat ensures j in Shl(b, 0) <==> j in b { ShlBit(b, 0, j); }
    } else {
      AdvanceByte(b, k - 1);
      var w := Shl(b, 8 * k);
      forall i: nat | i in w ensures i >= 8 { ShlBit(b, 8 * k, i); }
      ShiftByte(w);
      forall j: nat ensures j in Shr(w, 8) <==> j in Shl(b, 8 * k - 8) {
        ShrBit(w, 8, j);
        ShlBit(b, 8 * k, j + 8);
        ShlBit(b, 8 * k - 8, j);
      }
      assert Shr(w, 8) == Shl(b, 8 * (k - 1));
      AdvanceMore(w, 1, k - 1);
      OneByte(w);
    }
  }

  lemma OneByte(w: Word)
    ensures Advance(w, 1) == ZeroByte(w)
  {
    hide ZeroByte;
    assert Advance(w, 0) == w;
  }

  /** One more byte of a word: the register so far is `k` bytes on. */
  lemma StepInWord(x: Word, b: Octet, k: nat)
    ensures ByteStep(Advance(x, k), b) == Advance(Xor(x, Shl(b, 8 * k)), k + 1)
  {
    hide ZeroByte, Shl, Xor;
    AdvanceLinear(x, Shl(b, 8 * k), k);
    AdvanceByte(b, k);
  }

  lemma WordBytes(data: seq<Octet>, p: nat)
    requires p + 4 <= |data|
    ensures ReadUint32LE(data, p) == Xor(Xor(data[p], Shl(data[p + 1], 8)),
            Xor(Shl(data[p + 2], 16), Shl(data[p + 3], 24)))
    ensures Narrow(ReadUint32LE(data, p), 32)
  {
    hide Shl;
    var a, b, c, d := data[p], Shl(data[p + 1], 8), Shl(data[p + 2], 16), Shl(data[p + 3], 24);
    forall i: nat ensures (i in b ==> 8 <= i < 16) && (i in c ==> 16 <= i < 24) && (i in d ==> 24 <= i < 32) {
      ShlBit(data[p + 1], 8, i);
      ShlBit(data[p + 2], 16, i);
      ShlBit(data[p + 3], 24, i);
    }
  }

  /** Four bytes at once. */
  function WordStep(l: Word, w: Word): Word { Advance(Xor(l, w), 4) }

  lemma RunWord(l: Word, data: seq<Octet>, p: nat)
    requires p + 4 <= |data|
    ensures Run(l, data[p..p + 4]) == WordStep(l, ReadUint32LE(data, p))
  {
    hide ByteStep, Shl, Xor, ReadUint32LE;
    var a, b, c, d := data[p], data[p + 1], data[p + 2], data[p + 3];
    var four := data[p..p + 4];
    assert four == [a, b, c, d] && four[..3] == [a, b, c] && [a, b, c][..2] == [a, b] && [a, b][..1] == [a];
    assert Run(l, []) == l && Run(l, [a]) == ByteStep(l, a) && Run(l, [a, b]) == ByteStep(Run(l, [a]), b);
    assert Run(l, [a, b, c]) == ByteStep(Run(l, [a, b]), c);
    ShlNone(a);
    assert Advance(l, 0) == l;
    StepInWord(l, a, 0);
    var x1 := Xor(l, a);
    StepInWord(x1, b, 1);
    var x2 := Xor(x1, Shl(b, 8));
    StepInWord(x2, c, 2);
    var x3 := Xor(x2, Shl(c, 16));
    StepInWord(x3, d, 3);
    WordBytes(data, p);
    XorLaws(l, a, Shl(b, 8));
    XorLaws(x2, Shl(c, 16), Shl(d, 24));
    XorLaws(l, Xor(a, Shl(b, 8)), Xor(Shl(c, 16), Shl(d, 24)));
  }

  lemma ShlNone(b: Octet)
    ensures Shl(b, 8 * 0) == b
  {
    hide Shl;
    forall j: nat ensures j in Shl(b, 0) <==> j in b { ShlBit(b, 0, j); }
  }

  lemma NarrowSteps(a: Word, b: Word)
    requires Narrow(a, 32) && Narrow(b, 32)
    ensures Narrow(Xor(a, b), 32) && Narrow(BitStep(a), 32)
  {
    hide Shr;
    forall i: nat | i in Shr(a, 1) ensures i < 32 { ShrBit(a, 1, i); }
  }

  lemma {:induction false} NarrowAdvance(w: Word, n: nat)
    requires Narrow(w, 32)
    ensures Narrow(Advance(w, n), 32)
  {
    hide Narrow, BitStep;
    if n > 0 {
      NarrowAdvance(w, n - 1);
      var x := Advance(w, n - 1);
      NarrowZeroByte(x);
    }
  }

  lemma NarrowZeroByte(w: Word)
    requires Narrow(w, 32)
    ensures Narrow(ZeroByte(w), 32)
  {
    hide Narrow, BitStep;
    var a := BitStep(w);
    var b := BitStep(a);
    var c := BitStep(b);
    var d := BitStep(c);
    var e := BitStep(d);
    var f := BitStep(e);
    var g := BitStep(f);
    NarrowSteps(w, w);
    NarrowSteps(a, a);
    NarrowSteps(b, b);
    NarrowSteps(c, c);
    NarrowSteps(d, d);
    NarrowSteps(e, e);
    NarrowSteps(f, f);
    NarrowSteps(g, g);
  }

  /** What four lanes stand for. */
  function Lanes(a: Word, b: Word, c: Word, d: Word): Word {
    Xor(Xor(Advance(a, 16), Advance(b, 12)), Xor(Advance(c, 8), Advance(d, 4)))
  }

  /** Four words in a row. */
  lemma FourWords(l: Word, a: Word, b: Word, c: Word, d: Word)
    ensures WordStep(WordStep(WordStep(WordStep(l, a), b), c), d) == Lanes(Xor(l, a), b, c, d)
  {
    hide Advance, Xor;
    var x := Xor(l, a);
    var x1 := Advance(x, 4);
    AdvanceLinear(x1, b, 4);
    AdvanceMore(x, 4, 4);
    var x2 := Xor(Advance(x, 8), Advance(b, 4));
    AdvanceLinear(x2, c, 4);
    AdvanceLinear(Advance(x, 8), Advance(b, 4), 4);
    AdvanceMore(x, 8, 4);
    AdvanceMore(b, 4, 4);
    var x3 := Xor(Xor(Advance(x, 12), Advance(b, 8)), Advance(c, 4));
    AdvanceLinear(x3, d, 4);
    AdvanceLinear(Xor(Advance(x, 12), Advance(b, 8)), Advance(c, 4), 4);
    AdvanceLinear(Advance(x, 12), Advance(b, 8), 4);
    AdvanceMore(x, 12, 4);
    AdvanceMore(b, 8, 4);
    AdvanceMore(c, 4, 4);
    XorLaws(Xor(Advance(x, 16), Advance(b, 12)), Advance(c, 8), Advance(d, 4));
  }

  lemma LanesLinear(a: Word, b: Word, c: Word, d: Word, e: Word, f: Word, g: Word, h: Word)
    ensures Lanes(Xor(a, e), Xor(b, f), Xor(c, g), Xor(d, h)) == Xor(Lanes(a, b, c, d), Lanes(e, f, g, h))
  {
    hide Advance, Xor;
    AdvanceLinear(a, e, 16);
    AdvanceLinear(b, f, 12);
    AdvanceLinear(c, g, 8);
    AdvanceLinear(d, h, 4);
    XorSwap(Advance(a, 16), Advance(e, 16), Advance(b, 12), Advance(f, 12));
    XorSwap(Advance(c, 8), Advance(g, 8), Advance(d, 4), Advance(h, 4));
    XorSwap(Xor(Advance(a, 16), Advance(b, 12)), Xor(Advance(e, 16), Advance(f, 12)),
            Xor(Advance(c, 8), Advance(d, 4)), Xor(Advance(g, 8), Advance(h, 4)));
  }

  lemma LanesAdvance(a: Word, b: Word, c: Word, d: Word, n: nat)
    ensures Lanes(Advance(a, n), Advance(b, n), Advance(c, n), Advance(d, n)) == Advance(Lanes(a, b, c, d), n)
  {
    hide Advance, Xor;
    AdvanceMore(a, n, 16);
    AdvanceMore(a, 16, n);
    AdvanceMore(b, n, 12);
    AdvanceMore(b, 12, n);
    AdvanceMore(c, n, 8);
    AdvanceMore(c, 8, n);
    AdvanceMore(d, n, 4);
    AdvanceMore(d, 4, n);
    AdvanceLinear(Xor(Advance(a, 16), Advance(b, 12)), Xor(Advance(c, 8), Advance(d, 4)), n);
    AdvanceLinear(Advance(a, 16), Advance(b, 12), n);
    AdvanceLinear(Advance(c, 8), Advance(d, 4), n);
  }

  /** One swath of 16 bytes moves every lane on by one word. */
  lemma SwathStep(a: Word, b: Word, c: Word, d: Word, w: Word, x: Word, y: Word, z: Word)
    ensures Lanes(Xor(w, Advance(a, 16)), Xor(x, Advance(b, 16)), Xor(y, Advance(c, 16)), Xor(z, Advance(d, 16)))
         == WordStep(WordStep(WordStep(WordStep(Lanes(a, b, c, d), w), x), y), z)
  {
    hide Advance, Xor, Lanes, WordStep;
    var l := Lanes(a, b, c, d);
    FourWords(l, w, x, y, z);
    LanesLinear(w, x, y, z, Advance(a, 16), Advance(b, 16), Advance(c, 16), Advance(d, 16));
    LanesAdvance(a, b, c, d, 16);
    LanesLinear(l, {}, {}, {}, w, x, y, z);
    XorLaws(x, {}, {});
    XorLaws(y, {}, {});
    XorLaws(z, {}, {});
    LanesOfOne(l);
    XorLaws(Lanes(w, x, y, z), Advance(l, 16), {});
  }

  lemma LanesOfOne(l: Word)
    ensures Lanes(l, {}, {}, {}) == Advance(l, 16)
  {
    hide Advance, Xor;
    AdvanceZero(12);
    AdvanceZero(8);
    AdvanceZero(4);
    XorLaws(Advance(l, 16), {}, {});
    XorLaws({}, {}, {});
  }

  lemma {:induction false} AdvanceZero(n: nat)
    ensures Advance({}, n) == {}
  {
    hide ZeroByte;
    if n > 0 {
      AdvanceZero(n - 1);
      ShiftByte({});
      assert Shr({}, 8) == {};
    }
  }

  /** One word for the first lane, which then becomes the last one. */
  lemma RotateStep(a: Word, b: Word, c: Word, d: Word, w: Word)
    ensures Lanes(b, c, d, Xor(w, Advance(a, 16))) == WordStep(Lanes(a, b, c, d), w)
  {
    hide Advance, Xor;
    var a', b', c', d' := Advance(a, 20), Advance(b, 16), Advance(c, 12), Advance(d, 8);
    AdvanceLinear(w, Advance(a, 16), 4);
    AdvanceMore(a, 16, 4);
    AdvanceMore(b, 12, 4);
    AdvanceMore(c, 8, 4);
    AdvanceMore(d, 4, 4);
    AdvanceLinear(Lanes(a, b, c, d), w, 4);
    AdvanceLinear(Xor(Advance(a, 16), Advance(b, 12)), Xor(Advance(c, 8), Advance(d, 4)), 4);
    AdvanceLinear(Advance(a, 16), Advance(b, 12), 4);
    AdvanceLinear(Advance(c, 8), Advance(d, 4), 4);
    Rotated(a', b', c', d', Advance(w, 4));
  }

  lemma Rotated(a: Word, b: Word, c: Word, d: Word, w: Word)
    ensures Xor(Xor(b, c), Xor(d, Xor(w, a))) == Xor(Xor(Xor(a, b), Xor(c, d)), w)
  {
    hide Xor;
    XorLaws(w, a, b);
    XorLaws(d, a, w);
    XorLaws(Xor(b, c), Xor(d, a), w);
    XorLaws(b, c, a);
    XorLaws(d, a, b);
    XorSwap(b, c, a, d);
    XorLaws(b, a, c);
    XorLaws(a, d, w);
  }

  /** The lanes are combined one word step at a time. */
  lemma Combine(a: Word, b: Word, c: Word, d: Word)
    ensures WordStep(WordStep(WordStep(WordStep({}, a), b), c), d) == Lanes(a, b, c, d)
  {
    hide Advance, Xor, Lanes, WordStep;
    FourWords({}, a, b, c, d);
    XorLaws(a, {}, {});
  }

  // ----- the code -----

  /** Four table steps are four zero bytes. */
  method Step4W(l: Word, w0: Word) returns (r: Word)
    ensures r == WordStep(l, w0)
  {
    hide ZeroByte, Xor, Shr;
    var w := Xor(w0, l);
    XorLaws(w0, l, {});
    ghost var x := w;
    assert Advance(x, 0) == x;
    var i := 0;
    while i < 4
      invariant 0 <= i <= 4 && w == Advance(x, i)
    {
      TableStep(w);
      XorLaws(Shr(w, 8), ByteTable(ByteOf(w, 0)), {});
      w := Xor(Shr(w, 8), ByteTable(ByteOf(w, 0)));
      i := i + 1;
    }
    r := w;
  }

  /** One stride step of a lane. */
  method Step4(data: seq<Octet>, p: nat, lane: Word) returns (r: Word)
    requires p + 4 <= |data| && Narrow(lane, 32)
    ensures r == Xor(ReadUint32LE(data, p), Advance(lane, 16)) && Narrow(r, 32)
  {
    hide Stride, Xor, Advance, ReadUint32LE, Narrow;
    StrideAdvances(lane);
    NarrowAdvance(lane, 16);
    WordBytes(data, p);
    NarrowSteps(ReadUint32LE(data, p), Advance(lane, 16));
    r := Xor(ReadUint32LE(data, p), Stride(lane));
  }

  lemma RunNext(l: Word, data: seq<Octet>, p: nat)
    requires p < |data|
    ensures Run(l, data[..p + 1]) == ByteStep(Run(l, data[..p]), data[p])
  {
    hide ByteStep;
    assert data[..p + 1][..p] == data[..p];
  }

  lemma RunNextWord(l: Word, data: seq<Octet>, p: nat)
    requires p + 4 <= |data|
    ensures Run(l, data[..p + 4]) == WordStep(Run(l, data[..p]), ReadUint32LE(data, p))
  {
    hide WordStep, ReadUint32LE, Run;
    assert data[..p + 4] == data[..p] + data[p..p + 4];
    RunConcat(l, data[..p], data[p..p + 4]);
    RunWord(Run(l, data[..p]), data, p);
  }

  lemma RunNextSwath(l: Word, data: seq<Octet>, p: nat)
    requires p + 16 <= |data|
    ensures Run(l, data[..p + 16])
         == WordStep(WordStep(WordStep(WordStep(Run(l, data[..p]), ReadUint32LE(data, p)), ReadUint32LE(data, p + 4)),
                              ReadUint32LE(data, p + 8)), ReadUint32LE(data, p + 12))
  {
    hide WordStep, ReadUint32LE, Run;
    RunNextWord(l, data, p);
    RunNextWord(l, data, p + 4);
    RunNextWord(l, data, p + 8);
    RunNextWord(l, data, p + 12);
  }

  /** Bytes one at a time, up to position `stop`. */
  method ExtendBytes(ghost l0: Word, data: seq<Octet>, p0: nat, stop: nat, l1: Word) returns (l: Word)
    requires p0 <= stop <= |data| && l1 == Run(l0, data[..p0])
    ensures l == Run(l0, data[..stop])
  {
    hide Xor, Shr, ByteStep, Run;
    var p := p0;
    l := l1;
    while p != stop
      invariant p0 <= p <= stop && l == Run(l0, data[..p])
      decreases stop - p
    {
      Step1(l, data[p]);
      RunNext(l0, data, p);
      l := Xor(ByteTable(IndexByte(l, data[p])), Shr(l, 8));
      p := p + 1;
    }
  }

  function IndexByte(l: Word, b: Octet): (c: Octet)
    ensures c == Xor(ByteOf(l, 0), b)
  {
    Xor(ByteOf(l, 0), b)
  }

  /** The four lanes, from position `p0` to the last whole word. */
  method ExtendLanes(ghost l0: Word, data: seq<Octet>, p0: nat, l1: Word) returns (l: Word, p: nat)
    requires p0 + 16 <= |data| && l1 == Run(l0, data[..p0]) && Narrow(l1, 32)
    ensures p0 <= p <= |data| && |data| - p < 4 && l == Run(l0, data[..p])
  {
    hide Xor, WordStep, Lanes, Run, ReadUint32LE, Narrow, Advance;
    p := p0;
    WordBytes(data, p);
    WordBytes(data, p + 4);
    WordBytes(data, p + 8);
    WordBytes(data, p + 12);
    NarrowSteps(ReadUint32LE(data, p), l1);
    XorLaws(ReadUint32LE(data, p), l1, {});
    FourWords(l1, ReadUint32LE(data, p), ReadUint32LE(data, p + 4), ReadUint32LE(data, p + 8),
      ReadUint32LE(data, p + 12));
    RunNextSwath(l0, data, p);
    var crc0 := Xor(ReadUint32LE(data, p), l1);
    var crc1 := ReadUint32LE(data, p + 4);
    var crc2 := ReadUint32LE(data, p + 8);
    var crc3 := ReadUint32LE(data, p + 12);
    p := p + 16;
    while |data| - p >= 16
      invariant p0 <= p <= |data| && Lanes(crc0, crc1, crc2, crc3) == Run(l0, data[..p])
      invariant Narrow(crc0, 32) && Narrow(crc1, 32) && Narrow(crc2, 32) && Narrow(crc3, 32)
    {
      SwathStep(crc0, crc1, crc2, crc3,
                ReadUint32LE(data, p), ReadUint32LE(data, p + 4), ReadUint32LE(data, p + 8),
                  ReadUint32LE(data, p + 12));
      RunNextSwath(l0, data, p);
      crc0 := Step4(data, p, crc0);
      crc1 := Step4(data, p + 4, crc1);
      crc2 := Step4(data, p + 8, crc2);
      crc3 := Step4(data, p + 12, crc3);
      p := p + 16;
    }
    while |data| - p >= 4
      invariant p0 <= p <= |data| && Lanes(crc0, crc1, crc2, crc3) == Run(l0, data[..p])
      invariant Narrow(crc0, 32) && Narrow(crc1, 32) && Narrow(crc2, 32) && Narrow(crc3, 32)
    {
      RotateStep(crc0, crc1, crc2, crc3, ReadUint32LE(data, p));
      RunNextWord(l0, data, p);
      crc0 := Step4(data, p, crc0);
      var tmp := crc0;
      crc0 := crc1;
      crc1 := crc2;
      crc2 := crc3;
      crc3 := tmp;
      p := p + 4;
    }
    Combine(crc0, crc1, crc2, crc3);
    l := {};
    l := Step4W(l, crc0);
    l := Step4W(l, crc1);
    l := Step4W(l, crc2);
    l := Step4W(l, crc3);
  }

  /** Whatever the address of the buffer and its length: the checksum that one byte at a time
      gives. */
  method Extend(crc: Word, data: seq<Octet>, address: nat) returns (r: Word)
    requires Narrow(crc, 32)
    ensures r == Crc(crc, data)
  {
    hide Xor, Run, Narrow;
    var l0 := Xor(crc, ONES);
    var l, p := l0, 0;
    EmptyRun(l0, data);
    OnesNarrow(crc);
    var x := (4 - address % 4) % 4;
    if x <= |data| {
      l := ExtendBytes(l0, data, 0, x, l);
      p := x;
    }
    if |data| - p >= 16 {
      NarrowRun(l0, data[..p]);
      l, p := ExtendLanes(l0, data, p, l);
    }
    l := ExtendBytes(l0, data, p, |data|, l);
    assert data[..|data|] == data;
    r := Xor(l, ONES);
  }

  lemma EmptyRun(l: Word, data: seq<Octet>)
    ensures Run(l, data[..0]) == l
  {}

  lemma OnesNarrow(crc: Word)
    requires Narrow(crc, 32)
    ensures Narrow(Xor(crc, ONES), 32)
  {
    NarrowSteps(crc, ONES);
  }

  lemma {:induction false} NarrowRun(l: Word, data: seq<Octet>)
    requires Narrow(l, 32)
    ensures Narrow(Run(l, data), 32)
  {
    hide ZeroByte, Xor;
    if data != [] {
      NarrowRun(l, data[..|data|-1]);
      NarrowSteps(Run(l, data[..|data|-1]), data[|data|-1]);
      NarrowZeroByte(Xor(Run(l, data[..|data|-1]), data[|data|-1]));
    }
  }

  /** Extending twice is extending by both. */
  lemma ExtendTwice(crc: Word, a: seq<Octet>, b: seq<Octet>)
    ensures Crc(Crc(crc, a), b) == Crc(crc, a + b)
  {
    hide Xor, Run;
    var w := Run(Xor(crc, ONES), a);
    XorLaws(w, ONES, ONES);
    XorLaws(ONES, {}, {});
    XorLaws(w, {}, {});
    RunConcat(Xor(crc, ONES), a, b);
  }

  // ----- a change shows -----

  lemma BitStepInjective(a: Word, b: Word)
    requires Narrow(a, 32) && Narrow(b, 32) && BitStep(a) == BitStep(b)
    ensures a == b
  {
    hide Shr;
    ShrBit(a, 1, 31);
    ShrBit(b, 1, 31);
    assert 31 in POLYNOMIAL;
    TopBit(a);
    TopBit(b);
    var x, y := Shr(a, 1), Shr(b, 1);
    XorLaws(x, POLYNOMIAL, POLYNOMIAL);
    XorLaws(y, POLYNOMIAL, POLYNOMIAL);
    XorLaws(x, y, y);
    XorLaws(y, y, y);
    assert x == y;
    forall i: nat ensures i in a <==> i in b {
      if i > 0 {
        ShrBit(a, 1, i - 1);
        ShrBit(b, 1, i - 1);
      }
    }
  }

  /** The bit that is shifted out comes back as the top bit. */
  lemma TopBit(a: Word)
    requires Narrow(a, 32)
    ensures 31 in BitStep(a) <==> 0 in a
  {
    hide Shr;
    ShrBit(a, 1, 31);
    XorBit(Shr(a, 1), POLYNOMIAL, 31);
  }

  lemma {:induction false} BitStepsInjective(a: Word, b: Word, n: nat)
    requires Narrow(a, 32) && Narrow(b, 32) && BitSteps(a, n) == BitSteps(b, n)
    ensures a == b
  {
    hide BitStep, Narrow;
    if n > 0 {
      NarrowBitSteps(a, n - 1);
      NarrowBitSteps(b, n - 1);
      BitStepInjective(BitSteps(a, n - 1), BitSteps(b, n - 1));
      BitStepsInjective(a, b, n - 1);
    }
  }

  function BitSteps(w: Word, n: nat): Word {
    if n == 0 then w else BitStep(BitSteps(w, n - 1))
  }

  lemma {:induction false} NarrowBitSteps(w: Word, n: nat)
    requires Narrow(w, 32)
    ensures Narrow(BitSteps(w, n), 32)
  {
    hide BitStep, Narrow;
    if n > 0 {
      NarrowBitSteps(w, n - 1);
      NarrowSteps(BitSteps(w, n - 1), BitSteps(w, n - 1));
    }
  }

  lemma EightBitSteps(w: Word)
    ensures BitSteps(w, 8) == ZeroByte(w)
  {
    hide BitStep;
    assert BitSteps(w, 0) == w;
    assert BitSteps(w, 2) == BitStep(BitStep(BitSteps(w, 0)));
    assert BitSteps(w, 4) == BitStep(BitStep(BitSteps(w, 2)));
    assert BitSteps(w, 6) == BitStep(BitStep(BitSteps(w, 4)));
  }

  lemma ByteStepInjective(a: Word, b: Word, x: Octet, y: Octet)
    requires Narrow(a, 32) && Narrow(b, 32) && ByteStep(a, x) == ByteStep(b, y)
    ensures Xor(a, x) == Xor(b, y)
  {
    hide BitStep, Xor, BitSteps;
    EightBitSteps(Xor(a, x));
    EightBitSteps(Xor(b, y));
    NarrowSteps(a, x);
    NarrowSteps(b, y);
    BitStepsInjective(Xor(a, x), Xor(b, y), 8);
  }

  lemma XorCancel(a: Word, b: Word, c: Word)
    requires Xor(a, b) == Xor(a, c) || Xor(b, a) == Xor(c, a)
    ensures b == c
  {
    XorLaws(a, a, b);
    XorLaws(a, a, c);
    XorLaws(a, b, c);
    XorLaws(a, c, b);
    XorLaws(b, a, a);
    XorLaws(c, a, a);
    hide Xor;
  }

  lemma {:induction false} RunInjective(a: Word, b: Word, data: seq<Octet>)
    requires Narrow(a, 32) && Narrow(b, 32) && Run(a, data) == Run(b, data)
    ensures a == b
  {
    hide ByteStep, Xor, Narrow;
    if data != [] {
      var init, x := data[..|data|-1], data[|data|-1];
      NarrowRun(a, init);
      NarrowRun(b, init);
      ByteStepInjective(Run(a, init), Run(b, init), x, x);
      XorCancel(x, Run(a, init), Run(b, init));
      RunInjective(a, b, init);
    }
  }

  /** Data that differ in one byte have different checksums. */
  lemma OneByteMatters(crc: Word, a: seq<Octet>, x: Octet, y: Octet, b: seq<Octet>)
    requires Narrow(crc, 32) && Crc(crc, a + [x] + b) == Crc(crc, a + [y] + b)
    ensures x == y
  {
    hide Xor, Run, ByteStep, Narrow;
    var l := Xor(crc, ONES);
    OnesNarrow(crc);
    XorCancel(ONES, Run(l, a + [x] + b), Run(l, a + [y] + b));
    RunConcat(l, a + [x], b);
    RunConcat(l, a + [y], b);
    NarrowRun(l, a);
    NarrowRun(l, a + [x]);
    NarrowRun(l, a + [y]);
    RunInjective(Run(l, a + [x]), Run(l, a + [y]), b);
    RunLast(l, a, x);
    RunLast(l, a, y);
    ByteStepInjective(Run(l, a), Run(l, a), x, y);
    XorCancel(Run(l, a), x, y);
  }

  lemma RunLast(l: Word, a: seq<Octet>, x: Octet)
    ensures Run(l, a + [x]) == ByteStep(Run(l, a), x)
  {
    hide ByteStep;
    assert (a + [x])[..|a|] == a;
  }

  // ----- an odd number of changed bits shows -----

  lemma XorSize(a: Word, b: Word)
    ensures |Xor(a, b)| % 2 == (|a| + |b|) % 2
  {
    assert a == (a - b) + a * b && b == (b - a) + a * b;
    assert |a| == |a - b| + |a * b| && |b| == |b - a| + |a * b|;
  }

  lemma {:induction false} ShrSize(w: Word)
    requires 0 !in w
    ensures |Shr(w, 1)| == |w|
  {
    hide Shr;
    if w == {} {
      NothingShifted();
    } else {
      var i :| i in w;
      ShrSize(w - {i});
      ShrBit(w - {i}, 1, i - 1);
      forall j: nat ensures j in Shr(w, 1) <==> j in Shr(w - {i}, 1) + {i - 1} {
        ShrBit(w, 1, j);
        ShrBit(w - {i}, 1, j);
      }
      assert Shr(w, 1) == Shr(w - {i}, 1) + {i - 1};
    }
  }

  lemma NothingShifted()
    ensures Shr({}, 1) == {}
  {}

  lemma LowestLost(w: Word)
    requires 0 in w
    ensures |Shr(w, 1)| == |w| - 1
  {
    hide Shr;
    var v := w - {0};
    forall j: nat ensures j in Shr(w, 1) <==> j in Shr(v, 1) {
      ShrBit(w, 1, j);
      ShrBit(v, 1, j);
    }
    assert Shr(w, 1) == Shr(v, 1);
    ShrSize(v);
  }

  lemma PolynomialSize()
    ensures |POLYNOMIAL| == 17
  {
    SeventeenPositions();
  }

  lemma SeventeenPositions()
    ensures |{31, 25, 23, 22, 21, 20, 18, 17, 13, 12, 11, 9, 8, 6, 5, 4, 3}| == 17
  {}

  /** The polynomial has an odd number of bits, so a step keeps the parity of the register. */
  lemma BitStepParity(w: Word)
    ensures |BitStep(w)| % 2 == |w| % 2
  {
    hide Shr, Xor;
    if 0 in w {
      LowestLost(w);
      XorSize(Shr(w, 1), POLYNOMIAL);
      PolynomialSize();
    } else {
      ShrSize(w);
    }
  }

  lemma {:induction false} BitStepsParity(w: Word, n: nat)
    ensures |BitSteps(w, n)| % 2 == |w| % 2
  {
    hide BitStep;
    if n > 0 {
      BitStepsParity(w, n - 1);
      BitStepParity(BitSteps(w, n - 1));
    }
  }

  function BitCount(data: seq<Octet>): nat {
    if data == [] then 0 else BitCount(data[..|data|-1]) + |data[|data|-1]|
  }

  lemma {:induction false} RunParity(l: Word, data: seq<Octet>)
    ensures |Run(l, data)| % 2 == (|l| + BitCount(data)) % 2
  {
    hide BitStep, Xor, BitSteps;
    if data != [] {
      var w, b := Run(l, data[..|data|-1]), data[|data|-1];
      RunParity(l, data[..|data|-1]);
      XorSize(w, b);
      EightBitSteps(Xor(w, b));
      BitStepsParity(Xor(w, b), 8);
    }
  }

  /** In how many bits the data differ. */
  function Differences(a: seq<Octet>, b: seq<Octet>): nat
    requires |a| == |b|
  {
    if a == [] then 0 else Differences(a[..|a|-1], b[..|b|-1]) + |Xor(a[|a|-1], b[|b|-1])|
  }

  lemma {:induction false} DifferencesParity(a: seq<Octet>, b: seq<Octet>)
    requires |a| == |b|
    ensures Differences(a, b) % 2 == (BitCount(a) + BitCount(b)) % 2
  {
    hide Xor;
    if a != [] {
      DifferencesParity(a[..|a|-1], b[..|b|-1]);
      XorSize(a[|a|-1], b[|b|-1]);
    }
  }

  /** Data of one length that differ in an odd number of bits have different checksums. */
  lemma OddDifferencesShow(crc: Word, a: seq<Octet>, b: seq<Octet>)
    requires |a| == |b| && Differences(a, b) % 2 == 1
    ensures Crc(crc, a) != Crc(crc, b)
  {
    hide Xor, Run, Differences;
    var l := Xor(crc, ONES);
    DifferencesParity(a, b);
    RunParity(l, a);
    RunParity(l, b);
    XorSize(Run(l, a), ONES);
    XorSize(Run(l, b), ONES);
  }

  // ----- masking -----

  /** A stored checksum is rotated and has a constant added. */
  function Mask(crc: bv32): bv32 { ((crc >> 15) | (crc << 17)) + 0xa282_ead8 }

  function Unmask(masked: bv32): bv32 {
    var rot := masked - 0xa282_ead8;
    (rot >> 17) | (rot << 15)
  }

  lemma Unrotate(x: bv32)
    ensures var y := (x >> 15) | (x << 17); (y >> 17) | (y << 15) == x
  {}

  lemma MaskRoundTrip(crc: bv32)
    ensures Unmask(Mask(crc)) == crc
  {
    Unrotate(crc);
  }
}
