/** Bloom filters: a key that was added always matches. */
module Blooms {
  import opened InternalKeys
  import opened Coding
  import opened FilterBlocks

  /** A 32-bit hash of a key. */
  type Hash = Bytes -> nat

  /** A byte of a filter is the set of the positions of its one bits. */
  type Octet = w: set<nat> | forall i :: i in w ==> i < 8 witness {}

  /** The bits, and in the last byte the number of probes per key. */
  datatype Filter = Filter(cells: seq<Octet>, probes: nat)

  /** The eight bits of a byte. */
  function OctetOf(b: Byte): Octet {
    set i | 0 <= i < 8 && HasBit(b, i)
  }

  /** Bit `i`, counted from the lowest. */
  predicate HasBit(b: nat, i: nat) {
    if i == 0 then b % 2 == 1 else HasBit(b / 2, i - 1)
  }

  /** The number whose bits are those of `w` from `i` on. */
  function FromBit(w: Octet, i: nat): (r: nat)
    requires i <= 8
    ensures r < Pow(2, 8 - i)
    decreases 8 - i
  {
    if i == 8 then 0 else (if i in w then 1 else 0) + 2 * FromBit(w, i + 1)
  }

  lemma {:induction false} FromBitHas(w: Octet, i: nat, j: nat)
    requires i <= 8
    ensures HasBit(FromBit(w, i), j) <==> i + j in w
    decreases j
  {
    if i < 8 {
      var rest := FromBit(w, i + 1);
      assert FromBit(w, i) / 2 == rest && (FromBit(w, i) % 2 == 1 <==> i in w);
      if j > 0 { FromBitHas(w, i + 1, j - 1); }
    } else {
      NoBitOfZero(j);
    }
  }

  lemma {:induction false} NoBitOfZero(j: nat)
    ensures !HasBit(0, j)
  {
    if j > 0 { NoBitOfZero(j - 1); }
  }

  function ByteOf(w: Octet): Byte {
    assert Pow(2, 2) == 4 && Pow(2, 4) == 16 && Pow(2, 6) == 64 && Pow(2, 8) == 256;
    FromBit(w, 0)
  }

  lemma OctetRoundTrip(w: Octet)
    ensures OctetOf(ByteOf(w)) == w
  {
    hide HasBit, FromBit;
    forall i: nat | i < 8 ensures i in OctetOf(ByteOf(w)) <==> i in w { FromBitHas(w, 0, i); }
  }

  function Octets(b: Bytes): (r: seq<Octet>)
    ensures |r| == |b| && forall i :: 0 <= i < |b| ==> r[i] == OctetOf(b[i])
  {
    if b == [] then [] else Octets(b[..|b|-1]) + [OctetOf(b[|b|-1])]
  }

  function OctetBytes(cells: seq<Octet>): (r: Bytes)
    ensures |r| == |cells| && forall i :: 0 <= i < |cells| ==> r[i] == ByteOf(cells[i])
  {
    if cells == [] then [] else OctetBytes(cells[..|cells|-1]) + [ByteOf(cells[|cells|-1])]
  }

  /** The bits, then the number of probes. */
  function FilterBytes(f: Filter): Bytes
    requires f.probes < 256
  {
    OctetBytes(f.cells) + [f.probes]
  }

  function ParseFilter(b: Bytes): Filter {
    if b == [] then Filter([], 0) else Filter(Octets(b[..|b|-1]), b[|b|-1])
  }

  lemma FilterRoundTrip(f: Filter)
    requires f.probes < 256
    ensures ParseFilter(FilterBytes(f)) == f
  {
    var b := FilterBytes(f);
    assert b[..|b|-1] == OctetBytes(f.cells);
    forall i | 0 <= i < |f.cells| ensures Octets(OctetBytes(f.cells))[i] == f.cells[i] { OctetRoundTrip(f.cells[i]); }
  }

  predicate BitAt(cells: seq<Octet>, pos: nat)
    requires pos < 8 * |cells|
  {
    pos % 8 in cells[pos / 8]
  }

  function SetBit(cells: seq<Octet>, pos: nat): (r: seq<Octet>)
    requires pos < 8 * |cells|
    ensures |r| == |cells|
  {
    cells[pos / 8 := cells[pos / 8] + {pos % 8}]
  }

  /** The probes of a hash value: it grows by itself rotated right by 17 bits. */
  function Rotated(h: nat): nat { h / 0x2_0000 + h % 0x2_0000 * 0x8000 }

  function Probe(h: nat, j: nat): nat {
    if j == 0 then h % W32 else (Probe(h, j - 1) + Rotated(h % W32)) % W32
  }

  /** The low 17 bits become the high ones. */
  lemma RotatedBits(h: nat)
    requires h < W32
    ensures Rotated(h) < W32 && Rotated(h) / 0x8000 == h % 0x2_0000 && Rotated(h) % 0x8000 == h / 0x2_0000
  {}

  /** Double hashing: probe `j` is `j` rotated hash values further. */
  lemma {:induction false} ProbeIs(h: nat, j: nat)
    ensures Probe(h, j) == (h + j * Rotated(h % W32)) % W32
  {
    hide Rotated;
    if j > 0 {
      ProbeIs(h, j - 1);
      OneFurther(h, j - 1, Rotated(h % W32));
    }
  }

  lemma OneFurther(h: nat, j: nat, d: nat)
    ensures ((h + j * d) % W32 + d) % W32 == (h + (j + 1) * d) % W32
  {
    var a := h + j * d;
    assert h + (j + 1) * d == a + d;
    SumWraps(a, d);
  }

  lemma SumWraps(a: nat, d: nat)
    ensures (a % W32 + d) % W32 == (a + d) % W32
  {}

  lemma ProbeNext(h: nat, j: nat)
    ensures Probe(h, j + 1) == (Probe(h, j) + Rotated(h % W32)) % W32 && Probe(h, 0) == h % W32
  {
    hide Rotated;
  }

  predicate AllProbes(cells: seq<Octet>, h: nat, k: nat) {
    cells != [] && forall j: nat :: j < k ==> BitAt(cells, Probe(h, j) % (8 * |cells|))
  }

  /** What a filter answers: empty ones match nothing, unknown encodings everything. */
  predicate Matches(hash: Hash, key: Bytes, filter: Filter) {
    filter.cells != [] && (filter.probes > 30 || AllProbes(filter.cells, hash(key), filter.probes))
  }

  method KeyMayMatch(hash: Hash, key: Bytes, filter: Bytes) returns (r: bool)
    ensures r <==> Matches(hash, key, ParseFilter(filter))
  {
    hide BitAt, Rotated, Probe, OctetOf;
    ProbeNext(hash(key), 0);
    var len := |filter|;
    if len < 2 { return false; }
    var cells := Octets(filter[..len - 1]);
    var bits := 8 * (len - 1);
    var k := filter[len - 1];
    if k > 30 { return true; }
    var h := hash(key) % W32;
    var delta := Rotated(h);
    var j := 0;
    while j < k
      invariant 0 <= j <= k && h == Probe(hash(key), j)
      invariant forall i: nat :: i < j ==> BitAt(cells, Probe(hash(key), i) % bits)
    {
      if !BitAt(cells, h % bits) { return false; }
      ProbeNext(hash(key), j);
      h := (h + delta) % W32;
      j := j + 1;
    }
    r := true;
  }

  /** Setting one bit sets it and leaves the other ones. */
  lemma SetBitKeeps(cells: seq<Octet>, pos: nat, q: nat)
    requires pos < 8 * |cells| && q < 8 * |cells|
    ensures BitAt(SetBit(cells, pos), q) <==> q == pos || BitAt(cells, q)
  {}

  /** Every bit that is set in `a` is set in `b`. */
  ghost predicate Covers(a: seq<Octet>, b: seq<Octet>) {
    |a| == |b| && forall q: nat :: q < 8 * |a| && BitAt(a, q) ==> BitAt(b, q)
  }

  lemma CoversProbes(a: seq<Octet>, b: seq<Octet>, h: nat, k: nat)
    requires Covers(a, b) && AllProbes(a, h, k)
    ensures AllProbes(b, h, k)
  {
    hide BitAt;
  }

  /** Bit `q` is one that a key with this hash value probes. */
  ghost predicate Probed(h: nat, k: nat, bits: nat, q: nat)
    requires bits > 0
  {
    exists j: nat :: j < k && Probe(h, j) % bits == q
  }

  /** The bits of one key set. */
  function WithProbes(cells: seq<Octet>, h: nat, k: nat): (r: seq<Octet>)
    requires cells != []
    ensures |r| == |cells|
  {
    if k == 0 then cells else SetBit(WithProbes(cells, h, k - 1), Probe(h, k - 1) % (8 * |cells|))
  }

  /** The bits of all keys set. */
  function WithKeys(cells: seq<Octet>, hash: Hash, keys: seq<Bytes>, k: nat): (r: seq<Octet>)
    requires cells != []
    ensures |r| == |cells|
  {
    if keys == [] then cells else WithProbes(WithKeys(cells, hash, keys[..|keys|-1], k), hash(keys[|keys|-1]), k)
  }

  /** It sets those bits and no others. */
  lemma {:induction false} ProbesSet(cells: seq<Octet>, h: nat, k: nat)
    requires cells != []
    ensures var r := WithProbes(cells, h, k);
            && Covers(cells, r) && AllProbes(r, h, k)
            && forall q: nat :: q < 8 * |cells| && BitAt(r, q) ==> BitAt(cells, q) || Probed(h, k, 8 * |cells|, q)
  {
    hide SetBit, BitAt, Probe;
    if k > 0 {
      var front, bits := WithProbes(cells, h, k - 1), 8 * |cells|;
      ProbesSet(cells, h, k - 1);
      var pos := Probe(h, k - 1) % bits;
      forall q: nat | q < bits ensures BitAt(SetBit(front, pos), q) <==> q == pos || BitAt(front, q) {
        SetBitKeeps(front, pos, q);
      }
      assert Probed(h, k, bits, pos);
    }
  }

  lemma {:induction false} KeysSet(cells: seq<Octet>, hash: Hash, keys: seq<Bytes>, k: nat)
    requires cells != []
    ensures var r := WithKeys(cells, hash, keys, k);
            && (forall key :: key in keys ==> AllProbes(r, hash(key), k))
            && forall q: nat :: q < 8 * |cells| && BitAt(r, q) ==>
                 BitAt(cells, q) || exists key :: key in keys && Probed(hash(key), k, 8 * |cells|, q)
  {
    hide AllProbes, Covers, Probed, BitAt;
    if keys != [] {
      var init, last := keys[..|keys|-1], keys[|keys|-1];
      var front := WithKeys(cells, hash, init, k);
      KeysSet(cells, hash, init, k);
      ProbesSet(front, hash(last), k);
      assert keys == init + [last];
      forall key | key in init ensures AllProbes(WithKeys(cells, hash, keys, k), hash(key), k) {
        CoversProbes(front, WithKeys(cells, hash, keys, k), hash(key), k);
      }
    }
  }

  method AddKey(cells0: seq<Octet>, hash: nat, k: nat) returns (cells: seq<Octet>)
    requires cells0 != []
    ensures cells == WithProbes(cells0, hash, k)
  {
    hide SetBit, BitAt, Rotated, Probe;
    ProbeNext(hash, 0);
    cells := cells0;
    var bits := 8 * |cells0|;
    var h := hash % W32;
    var delta := Rotated(h);
    var j := 0;
    while j < k
      invariant 0 <= j <= k && h == Probe(hash, j) && cells == WithProbes(cells0, hash, j)
    {
      cells := SetBit(cells, h % bits);
      ProbeNext(hash, j);
      h := (h + delta) % W32;
      j := j + 1;
    }
  }

  /** In bytes; small filters are rounded up. */
  function FilterSize(n: nat, bitsPerKey: nat): (r: nat)
    ensures r >= 8
  {
    var bits := n * bitsPerKey;
    ((if bits < 64 then 64 else bits) + 7) / 8
  }

  function Created(hash: Hash, keys: seq<Bytes>, bitsPerKey: nat, k: nat): Filter {
    Filter(WithKeys(NoBits(FilterSize(|keys|, bitsPerKey)), hash, keys, k), k)
  }

  /** Whole bytes for that many bits, but for no fewer than 64. */
  predicate SizeFits(size: nat, bits: nat) { 8 * size >= bits && size >= 8 && (size == 8 || 8 * size < bits + 8) }

  lemma FilterSizeFits(keys: nat, bitsPerKey: nat)
    ensures SizeFits(FilterSize(keys, bitsPerKey), keys * bitsPerKey)
  {}

  /** A filter over `keys` with `k` probes each: every one of them matches, and every bit is a
      probe of one of them. */
  lemma CreatedMatches(hash: Hash, keys: seq<Bytes>, bitsPerKey: nat, k: nat)
    ensures var f := Created(hash, keys, bitsPerKey, k);
            && |f.cells| == FilterSize(|keys|, bitsPerKey) && SizeFits(|f.cells|, |keys| * bitsPerKey)
            && (forall key :: key in keys ==> Matches(hash, key, f))
            && forall q: nat :: q < 8 * |f.cells| && BitAt(f.cells, q) ==>
                 exists key :: key in keys && Probed(hash(key), k, 8 * |f.cells|, q)
  {
    hide AllProbes, Probed, BitAt, WithKeys, FilterSize, SizeFits;
    var n := FilterSize(|keys|, bitsPerKey);
    FilterSizeFits(|keys|, bitsPerKey);
    NoBitsAt(n);
    KeysSet(NoBits(n), hash, keys, k);
  }

  method CreateFilter(hash: Hash, keys: seq<Bytes>, bitsPerKey: nat, k: nat) returns (filter: Bytes)
    requires 1 <= k <= 30
    ensures filter == FilterBytes(Created(hash, keys, bitsPerKey, k))
    ensures forall key :: key in keys ==> Matches(hash, key, ParseFilter(filter))
  {
    hide Matches, WithProbes, BitAt, Probed, ByteOf, ParseFilter, OctetBytes;
    var bits := |keys| * bitsPerKey;
    if bits < 64 { bits := 64; }
    var bytes := (bits + 7) / 8;
    assert bytes == FilterSize(|keys|, bitsPerKey);
    var cells0 := NoBits(bytes);
    var cells := cells0;
    var i := 0;
    while i < |keys|
      invariant 0 <= i <= |keys| && cells == WithKeys(cells0, hash, keys[..i], k)
    {
      assert keys[..i + 1][..i] == keys[..i];
      cells := AddKey(cells, hash(keys[i]), k);
      i := i + 1;
    }
    assert keys[..i] == keys;
    filter := OctetBytes(cells) + [k];
    CreatedMatches(hash, keys, bitsPerKey, k);
    FilterRoundTrip(Filter(cells, k));
  }

  // ----- the policy -----

  function BloomPolicy(hash: Hash, bitsPerKey: nat, k: nat): Policy
    requires 1 <= k <= 30
  {
    Policy((keys: seq<Bytes>) => FilterBytes(Created(hash, keys, bitsPerKey, k)),
           (key: Bytes, filter: Bytes) => Matches(hash, key, ParseFilter(filter)))
  }

  /** Whatever the hash: a key matches every filter that was made from it. */
  lemma BloomIsSound(hash: Hash, bitsPerKey: nat, k: nat)
    requires 1 <= k <= 30
    ensures Sound(BloomPolicy(hash, bitsPerKey, k))
  {
    hide Matches, WithKeys, BitAt, FilterBytes, ParseFilter, Probed;
    var p := BloomPolicy(hash, bitsPerKey, k);
    forall keys: seq<Bytes>, key: Bytes | key in keys ensures p.mayMatch(key, p.create(keys)) {
      CreatedMatches(hash, keys, bitsPerKey, k);
      FilterRoundTrip(Created(hash, keys, bitsPerKey, k));
    }
  }

  function NoBits(n: nat): (r: seq<Octet>)
    ensures |r| == n
  {
    if n == 0 then [] else NoBits(n - 1) + [{}]
  }

  lemma {:induction false} NoBitsAt(n: nat)
    ensures forall q: nat :: q < 8 * n ==> !BitAt(NoBits(n), q)
  {
    if n > 0 {
      NoBitsAt(n - 1);
      forall q: nat | q < 8 * n ensures !BitAt(NoBits(n), q) {
        if q < 8 * (n - 1) { assert !BitAt(NoBits(n - 1), q); }
      }
    }
  }
}
