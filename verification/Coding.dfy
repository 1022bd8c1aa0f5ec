/** Fixed-width and variable-length integers, and length-prefixed strings. */
module Coding {
  import opened InternalKeys

  const W32: nat := 0x1_0000_0000
  const W64: nat := 0x1_0000_0000_0000_0000

  // ----- fixed width, little endian -----

  function Fixed(v: nat, width: nat): (r: Bytes)
    ensures |r| == width
  {
    if width == 0 then [] else [v % 256] + Fixed(v / 256, width - 1)
  }

  function Unfixed(b: Bytes): nat {
    if b == [] then 0 else b[0] + 256 * Unfixed(b[1..])
  }

  function Pow(base: nat, n: nat): nat {
    if n == 0 then 1 else base * Pow(base, n - 1)
  }

  lemma {:induction false} FixedRoundTrip(v: nat, width: nat)
    requires v < Pow(256, width)
    ensures Unfixed(Fixed(v, width)) == v
  {
    if width > 0 {
      FixedRoundTrip(v / 256, width - 1);
    }
  }

  lemma {:induction false} UnfixedRoundTrip(b: Bytes)
    ensures Unfixed(b) < Pow(256, |b|) && Fixed(Unfixed(b), |b|) == b
  {
    if b != [] {
      UnfixedRoundTrip(b[1..]);
      assert b == [b[0]] + b[1..];
      assert (b[0] + 256 * Unfixed(b[1..])) / 256 == Unfixed(b[1..]);
    }
  }

  lemma Quotient(v: nat, d: nat, q: nat, r: nat)
    requires r < d && v == d * q + r
    ensures v / d == q
  {
    var x := v / d;
    Multiples(d, x + 1, q);
    Multiples(d, q + 1, x);
  }

  lemma Multiples(d: nat, a: nat, b: nat)
    ensures a <= b ==> d * a <= d * b
  {}

  /** A remainder of a remainder. */
  lemma SmallRemainder(p: nat, base: nat, a: nat, b: nat)
    requires a < p && b < base
    ensures base * a + b < base * p
  {
    Multiples(base, a + 1, p);
    assert base * (a + 1) == base * a + base;
  }

  lemma Regroup(base: nat, p: nat, x: nat, a: nat)
    ensures base * (p * x + a) == base * p * x + base * a
  {}

  /** Dividing by a power takes one digit off after the other. */
  lemma DigitByDigit(v: nat, base: nat, n: nat)
    requires base > 1
    ensures Pow(base, n) > 0 && v / base / Pow(base, n) == v / Pow(base, n + 1)
  {
    PowPositive(base, n);
    TwoQuotients(v, base, Pow(base, n));
  }

  lemma TwoQuotients(v: nat, base: nat, p: nat)
    requires base > 0 && p > 0
    ensures base * p > 0 && v / base / p == v / (base * p)
  {
    var q := v / base;
    BothParts(v, base, p, q, q / p, q % p, v % base);
  }

  lemma BothParts(v: nat, base: nat, p: nat, q: nat, x: nat, a: nat, b: nat)
    requires v == base * q + b && q == p * x + a && a < p && b < base
    ensures base * p > 0 && v / (base * p) == x
  {
    SmallRemainder(p, base, a, b);
    Regroup(base, p, x, a);
    Quotient(v, base * p, x, base * a + b);
  }

  lemma {:induction false} PowPositive(base: nat, n: nat)
    requires base > 0
    ensures Pow(base, n) > 0
  {
    if n > 0 { PowPositive(base, n - 1); }
  }

  /** Byte `i` is digit `i` in base 256, the least significant first. */
  lemma {:induction false} FixedIsLittleEndian(v: nat, width: nat, i: nat)
    requires i < width
    ensures Pow(256, i) > 0 && Fixed(v, width)[i] == v / Pow(256, i) % 256
  {
    PowPositive(256, i);
    if i > 0 {
      DigitByDigit(v, 256, i - 1);
      FixedIsLittleEndian(v / 256, width - 1, i - 1);
    }
  }

  lemma Widths()
    ensures Pow(256, 4) == W32 && Pow(256, 8) == W64
  {
    assert Pow(256, 2) == 0x1_0000 && Pow(256, 3) == 0x100_0000 && Pow(256, 4) == W32;
    assert Pow(256, 5) == 0x100 * W32 && Pow(256, 6) == 0x1_0000 * W32 && Pow(256, 7) == 0x100_0000 * W32;
  }

  // ----- variable length -----

  function Varint(v: nat): (r: Bytes)
    ensures r != []
  {
    if v < 128 then [v] else [v % 128 + 128] + Varint(v / 128)
  }

  /** Byte `i` is digit `i` in base 128, the least significant first, with the top bit in all but the
      last byte; there are no more bytes than digits. */
  lemma {:induction false} VarintDigits(v: nat, i: nat)
    requires i < |Varint(v)|
    ensures Pow(128, i) > 0 && (i > 0 ==> Pow(128, i) <= v)
    ensures Varint(v)[i] == v / Pow(128, i) % 128 + if i < |Varint(v)| - 1 then 128 else 0
    ensures i == |Varint(v)| - 1 ==> v < Pow(128, i + 1)
  {
    hide Varint, Pow;
    PowPositive(128, i);
    OneSeptet(v);
    PowNext(128, i);
    if i > 0 {
      PowNext(128, i - 1);
      DigitByDigit(v, 128, i - 1);
      VarintDigits(v / 128, i - 1);
    }
  }

  lemma OneSeptet(v: nat)
    ensures Varint(v) == if v < 128 then [v] else [v % 128 + 128] + Varint(v / 128)
    ensures Pow(128, 0) == 1
  {}

  lemma PowNext(base: nat, n: nat)
    ensures Pow(base, n + 1) == base * Pow(base, n)
  {}

  /** Reads a varint of at most `left` bytes: its value and what follows. */
  function Scan(input: Bytes, left: nat): (r: Option<(nat, Bytes)>)
    ensures r.Some? ==> |r.value.1| < |input|
  {
    if left == 0 || input == [] then None
    else if input[0] < 128 then Some((input[0], input[1..]))
    else
      var tail := Scan(input[1..], left - 1);
      if tail.None? then None else Some((input[0] - 128 + 128 * tail.value.0, tail.value.1))
  }

  /** Bits beyond the width of the result are lost. */
  function Truncated(r: Option<(nat, Bytes)>, width: nat): Option<(nat, Bytes)>
    requires width > 0
  {
    if r.None? then None else Some((r.value.0 % width, r.value.1))
  }

  function Varint32(input: Bytes): (r: Option<(nat, Bytes)>)
    ensures r.Some? ==> |r.value.1| < |input|
  {
    Truncated(Scan(input, 5), W32)
  }

  function Varint64(input: Bytes): (r: Option<(nat, Bytes)>)
    ensures r.Some? ==> |r.value.1| < |input|
  {
    Truncated(Scan(input, 10), W64)
  }

  lemma {:induction false} ScanVarint(v: nat, left: nat, suffix: Bytes)
    requires left > 0 && v < Pow(128, left)
    ensures Scan(Varint(v) + suffix, left) == Some((v, suffix))
  {
    var b := Varint(v) + suffix;
    if v < 128 {
      assert b[1..] == suffix;
    } else {
      assert Pow(128, left) == 128 * Pow(128, left - 1) && Pow(128, 0) == 1;
      ScanVarint(v / 128, left - 1, suffix);
      assert b[1..] == Varint(v / 128) + suffix;
    }
  }

  lemma VarintWidths()
    ensures W32 <= Pow(128, 5) && W64 <= Pow(128, 10)
  {
    assert Pow(128, 1) == 128 && Pow(128, 2) == 0x4000 && Pow(128, 3) == 0x20_0000 && Pow(128, 4) == 0x1000_0000;
    assert Pow(128, 5) == 8 * W32 && Pow(128, 6) == 0x400 * W32 && Pow(128, 7) == 0x2_0000 * W32;
    assert Pow(128, 8) == 0x100_0000 * W32 && Pow(128, 9) == 0x8000_0000 * W32;
  }

  /** Whatever follows, a number of the right width is read back. */
  lemma Varint32RoundTrip(v: nat, suffix: Bytes)
    requires v < W32
    ensures Varint32(Varint(v) + suffix) == Some((v, suffix))
  {
    hide Varint, Scan, Pow;
    VarintWidths();
    ScanVarint(v, 5, suffix);
  }

  lemma Varint64RoundTrip(v: nat, suffix: Bytes)
    requires v < W64
    ensures Varint64(Varint(v) + suffix) == Some((v, suffix))
  {
    hide Varint, Scan, Pow;
    VarintWidths();
    ScanVarint(v, 10, suffix);
  }

  /** A varint ends at the first byte below 128; without one among the first `left` bytes
      nothing is read. */
  lemma {:induction false} ScanFailsIffUnterminated(input: Bytes, left: nat)
    ensures Scan(input, left).None? <==> forall i :: 0 <= i < |input| && i < left ==> input[i] >= 128
  {
    if left > 0 && input != [] && input[0] >= 128 {
      ScanFailsIffUnterminated(input[1..], left - 1);
      if Scan(input, left).None? {
        forall i | 0 < i < |input| && i < left ensures input[i] >= 128 { assert input[i] == input[1..][i - 1]; }
      }
    }
  }

  /** No varint is a proper prefix of another one. */
  lemma VarintPrefixFree(a: nat, b: nat, s: Bytes, t: Bytes)
    requires Varint(a) + s == Varint(b) + t
    ensures a == b && s == t
  {
    var left := a + b + 1;
    PowAbove(left);
    ScanVarint(a, left, s);
    ScanVarint(b, left, t);
  }

  lemma {:induction false} PowAbove(n: nat)
    ensures n < Pow(128, n)
  {
    if n > 0 { PowAbove(n - 1); }
  }

  method EncodeVarint64(value: nat) returns (dst: Bytes)
    ensures dst == Varint(value)
  {
    dst := [];
    var v := value;
    while v >= 128
      invariant dst + Varint(v) == Varint(value)
    {
      ghost var before := dst;
      dst := dst + [v % 128 + 128];
      assert Varint(v) == [v % 128 + 128] + Varint(v / 128);
      assert dst + Varint(v / 128) == before + Varint(v);
      v := v / 128;
    }
    dst := dst + [v];
  }

  /** The unrolled encoder for 32 bits writes the same bytes. */
  method EncodeVarint32(v: nat) returns (dst: Bytes)
    requires v < W32
    ensures dst == Varint(v)
  {
    if v < 0x80 {
      dst := [v];
    } else if v < 0x4000 {
      dst := [v % 128 + 128, v / 128];
    } else if v < 0x20_0000 {
      dst := [v % 128 + 128, v / 0x80 % 128 + 128, v / 0x4000];
      UnrollVarint(v, 2);
    } else if v < 0x1000_0000 {
      dst := [v % 128 + 128, v / 0x80 % 128 + 128, v / 0x4000 % 128 + 128, v / 0x20_0000];
      UnrollVarint(v, 3);
    } else {
      dst := [v % 128 + 128, v / 0x80 % 128 + 128, v / 0x4000 % 128 + 128, v / 0x20_0000 % 128 + 128, v / 0x1000_0000];
      UnrollVarint(v, 4);
    }
  }

  lemma UnrollVarint(v: nat, n: nat)
    requires 2 <= n <= 4 && Pow(128, n) <= v < 128 * Pow(128, n)
    ensures n == 2 ==> Varint(v) == [v % 128 + 128, v / 0x80 % 128 + 128, v / 0x4000]
    ensures n == 3 ==> Varint(v) == [v % 128 + 128, v / 0x80 % 128 + 128, v / 0x4000 % 128 + 128, v / 0x20_0000]
    ensures n == 4 ==>
              Varint(v) == [v % 128 + 128, v / 0x80 % 128 + 128, v / 0x4000 % 128 + 128, v / 0x20_0000 % 128 + 128,
                v / 0x1000_0000]
  {
    assert Pow(128, 1) == 128 && Pow(128, 2) == 0x4000 && Pow(128, 3) == 0x20_0000 && Pow(128, 4) == 0x1000_0000;
    var a, b, c, d := v / 0x80, v / 0x4000, v / 0x20_0000, v / 0x1000_0000;
    assert a / 128 == b && b / 128 == c && c / 128 == d;
    if n == 2 {
      assert Varint(a) == [a % 128 + 128] + Varint(b);
    } else if n == 3 {
      assert Varint(b) == [b % 128 + 128] + Varint(c);
      assert Varint(a) == [a % 128 + 128] + Varint(b);
    } else {
      assert Varint(c) == [c % 128 + 128] + Varint(d);
      assert Varint(b) == [b % 128 + 128] + Varint(c);
      assert Varint(a) == [a % 128 + 128] + Varint(b);
    }
  }

  method VarintLength(value: nat) returns (len: nat)
    ensures len == |Varint(value)|
  {
    len := 1;
    var v := value;
    while v >= 128
      invariant len - 1 + |Varint(v)| == |Varint(value)|
    {
      v := v / 128;
      len := len + 1;
    }
  }

  /** Reads at most `limit` bytes; the partial result grows seven bits at a time. */
  method GetVarint(input: Bytes, limit: nat, width: nat) returns (r: Option<(nat, Bytes)>)
    requires width > 0
    ensures r == Truncated(Scan(input, limit), width)
  {
    var result: nat, unit: nat, p := 0, 1, 0;
    assert input[0..] == input;
    while p < limit && p < |input|
      invariant p <= limit && p <= |input|
      invariant Scan(input, limit) == Shifted(result, unit, Scan(input[p..], limit - p))
    {
      var byte := input[p];
      assert input[p..][1..] == input[p + 1..];
      if byte >= 128 {
        ShiftMore(result, unit, byte, Scan(input[p + 1..], limit - p - 1));
        result := result + (byte - 128) * unit;
      } else {
        return Some(((result + byte * unit) % width, input[p + 1..]));
      }
      unit := 128 * unit;
      p := p + 1;
    }
    r := None;
  }

  ghost function Shifted(result: nat, unit: nat, rest: Option<(nat, Bytes)>): Option<(nat, Bytes)> {
    if rest.None? then None else Some((result + rest.value.0 * unit, rest.value.1))
  }

  lemma ShiftMore(result: nat, unit: nat, byte: nat, rest: Option<(nat, Bytes)>)
    requires byte >= 128
    ensures (byte - 128) * unit >= 0
    ensures Shifted(result, unit, if rest.None? then None else Some((byte - 128 + 128 * rest.value.0, rest.value.1)))
         == Shifted(result + (byte - 128) * unit, 128 * unit, rest)
  {
    if rest.Some? {
      var v := rest.value.0;
      assert (byte - 128 + 128 * v) * unit == (byte - 128) * unit + v * (128 * unit);
    }
  }

  method GetVarint32(input: Bytes) returns (r: Option<(nat, Bytes)>)
    ensures r == Varint32(input)
  {
    r := GetVarint(input, 5, W32);
  }

  method GetVarint64(input: Bytes) returns (r: Option<(nat, Bytes)>)
    ensures r == Varint64(input)
  {
    r := GetVarint(input, 10, W64);
  }

  // ----- length-prefixed strings -----

  function Prefixed(s: Bytes): Bytes { Varint(|s|) + s }

  function Unprefixed(input: Bytes): (r: Option<(Bytes, Bytes)>)
    ensures r.Some? ==> |r.value.1| < |input|
  {
    var r := Varint32(input);
    if r.Some? && r.value.0 <= |r.value.1| then Some((r.value.1[..r.value.0], r.value.1[r.value.0..])) else None
  }

  lemma PrefixedRoundTrip(s: Bytes, suffix: Bytes)
    requires |s| < W32
    ensures Unprefixed(Prefixed(s) + suffix) == Some((s, suffix))
  {
    assert Prefixed(s) + suffix == Varint(|s|) + (s + suffix);
    Varint32RoundTrip(|s|, s + suffix);
  }

  method GetLengthPrefixedSlice(input: Bytes) returns (r: Option<(Bytes, Bytes)>)
    ensures r == Unprefixed(input)
  {
    var len := GetVarint32(input);
    if len.Some? && |len.value.1| >= len.value.0 {
      r := Some((len.value.1[..len.value.0], len.value.1[len.value.0..]));
    } else {
      r := None;
    }
  }
}
