/** The write-ahead log: records cut into fragments that do not cross 32 KB blocks. */
module Logs {
  import opened InternalKeys
  import opened Coding

  const BLOCK_SIZE: nat := 32768
  const HEADER_SIZE: nat := 7
  const FULL: Byte := 1
  const FIRST: Byte := 2
  const MIDDLE: Byte := 3
  const LAST: Byte := 4

  /** The checksum of a fragment covers its type and its data. */
  type Checksum = Bytes -> nat

  function Sum(c: Checksum, kind: Byte, data: Bytes): nat { c([kind] + data) % W32 }

  // ----- the format -----

  function Physical(c: Checksum, kind: Byte, data: Bytes): (r: Bytes)
    requires |data| < 0x1_0000
    ensures |r| == HEADER_SIZE + |data|
  {
    Fixed(Sum(c, kind, data), 4) + [|data| % 256, |data| / 256, kind] + data
  }

  function Zeros(n: nat): (r: Bytes)
    ensures |r| == n
  {
    if n == 0 then [] else [0] + Zeros(n - 1)
  }

  function Kind(begin: bool, end: bool): Byte {
    if begin && end then FULL else if begin then FIRST else if end then LAST else MIDDLE
  }

  function Fragment(block: nat, data: Bytes): (n: nat)
    requires block + HEADER_SIZE <= BLOCK_SIZE
    ensures n <= |data| && block + HEADER_SIZE + n <= BLOCK_SIZE
    ensures n == |data| || block + HEADER_SIZE + n == BLOCK_SIZE
  {
    if |data| < BLOCK_SIZE - block - HEADER_SIZE then |data| else BLOCK_SIZE - block - HEADER_SIZE
  }

  /** What is written for `data` when `block` bytes of the current block are in use. */
  function Emitted(c: Checksum, block: nat, data: Bytes, begin: bool): Bytes
    requires block <= BLOCK_SIZE
    decreases |data|, if block + HEADER_SIZE < BLOCK_SIZE then 0 else if block + HEADER_SIZE == BLOCK_SIZE then 2 else 1
  {
    if BLOCK_SIZE - block < HEADER_SIZE then Zeros(BLOCK_SIZE - block) + Emitted(c, 0, data, begin)
    else
      var n := Fragment(block, data);
      if n == |data| then Physical(c, Kind(begin, true), data)
      else Physical(c, Kind(begin, false), data[..n]) + Emitted(c, block + HEADER_SIZE + n, data[n..], false)
  }

  /** The log of `records`: each starts where the one before ended. */
  function Log(c: Checksum, records: seq<Bytes>): Bytes {
    if records == [] then []
    else
      var before := Log(c, records[..|records|-1]);
      before + Emitted(c, |before| % BLOCK_SIZE, records[|records|-1], true)
  }

  /** `block` bytes of the block that holds position `length` are in use (a full block counts as
      the end of the one before). */
  ghost predicate Aligned(block: nat, length: nat) {
    block <= BLOCK_SIZE && block % BLOCK_SIZE == length % BLOCK_SIZE
  }

  lemma AlignedMore(block: nat, length: nat, n: nat)
    requires Aligned(block, length) && block + n <= BLOCK_SIZE
    ensures Aligned(block + n, length + n) && (block + n == BLOCK_SIZE ==> Aligned(0, length + n))
  {
    var k := length / BLOCK_SIZE;
    if block == BLOCK_SIZE {
      SameOffset(k, 0, length);
    } else {
      SameOffset(k, block + n, length + n);
    }
  }

  lemma SameOffset(k: nat, x: nat, y: nat)
    requires y == k * BLOCK_SIZE + x
    ensures y % BLOCK_SIZE == x % BLOCK_SIZE
  {}

  lemma AlignedWhole(block: nat, length: nat)
    requires Aligned(block, length)
    ensures block <= BLOCK_SIZE && block % BLOCK_SIZE == length % BLOCK_SIZE
  {}

  lemma LogSnoc(c: Checksum, records: seq<Bytes>, data: Bytes)
    ensures Log(c, records + [data]) == Log(c, records) + Emitted(c, |Log(c, records)| % BLOCK_SIZE, data, true)
  {
    assert (records + [data])[..|records|] == records;
  }

  // ----- the writer -----

  class Writer {
    const checksum: Checksum
    var dest: Bytes
    var blockOffset: nat
    ghost var records: seq<Bytes>

    ghost predicate Valid()
      reads this
    {
      dest == Log(checksum, records) && Aligned(blockOffset, |dest|)
    }

    constructor (checksum: Checksum)
      ensures Valid() && records == [] && this.checksum == checksum
    {
      this.checksum, dest, blockOffset, records := checksum, [], 0, [];
    }

    /** Goes on with a log that another writer left at a record's end. */
    constructor Resume(checksum: Checksum, dest: Bytes, ghost records: seq<Bytes>)
      requires dest == Log(checksum, records)
      ensures Valid() && this.records == records && this.dest == dest && this.checksum == checksum
    {
      this.checksum, this.dest, this.records := checksum, dest, records;
      blockOffset := |dest| % BLOCK_SIZE;
    }

    method AddRecord(data: Bytes)
      requires Valid()
      modifies this
      ensures Valid() && records == old(records) + [data] && old(dest) <= dest
    {
      hide Physical, Zeros, Kind, Fragment, Aligned, Emitted, Log;
      ghost var before := dest;
      ghost var whole := Emitted(checksum, |before| % BLOCK_SIZE, data, true);
      AlignedWhole(blockOffset, |dest|);
      FullBlock(checksum, blockOffset, data, true);
      LogSnoc(checksum, records, data);
      var left, begin, more := data, true, true;
      while more
        invariant Aligned(blockOffset, |dest|) && blockOffset <= BLOCK_SIZE && records == old(records)
        invariant if more then dest + Emitted(checksum, blockOffset, left, begin) == before + whole
                  else dest == before + whole
        decreases more, |left|, if blockOffset + HEADER_SIZE < BLOCK_SIZE then 0
          else if blockOffset + HEADER_SIZE == BLOCK_SIZE then 2 else 1
      {
        var leftover := BLOCK_SIZE - blockOffset;
        if leftover < HEADER_SIZE {
          FillBlock(checksum, dest, blockOffset, left, begin);
          AlignedMore(blockOffset, |dest|, leftover);
          dest := dest + Zeros(leftover);
          blockOffset := 0;
        }
        var n := Fragment(blockOffset, left);
        var end := n == |left|;
        EmitOne(checksum, dest, blockOffset, left, begin);
        EmitPhysicalRecord(Kind(begin, end), left[..n]);
        left, begin, more := left[n..], false, !end;
      }
      records := records + [data];
    }

    method EmitPhysicalRecord(kind: Byte, data: Bytes)
      requires blockOffset + HEADER_SIZE + |data| <= BLOCK_SIZE && Aligned(blockOffset, |dest|)
      modifies `dest, `blockOffset
      ensures dest == old(dest) + Physical(checksum, kind, data)
              && blockOffset == old(blockOffset) + HEADER_SIZE + |data|
      ensures Aligned(blockOffset, |dest|)
    {
      AlignedMore(blockOffset, |dest|, HEADER_SIZE + |data|);
      hide Aligned, Fixed;
      ghost var before := dest;
      var header := Fixed(Sum(checksum, kind, data), 4) + [|data| % 256, |data| / 256, kind];
      dest := dest + header;
      dest := dest + data;
      blockOffset := blockOffset + HEADER_SIZE + |data|;
      assert dest == before + Physical(checksum, kind, data);
    }
  }

  lemma FullBlock(c: Checksum, block: nat, data: Bytes, begin: bool)
    requires block <= BLOCK_SIZE
    ensures Emitted(c, block, data, begin) == Emitted(c, block % BLOCK_SIZE, data, begin)
  {
    hide Physical, Fragment;
    if block == BLOCK_SIZE { assert Zeros(0) + Emitted(c, 0, data, begin) == Emitted(c, 0, data, begin); }
  }

  lemma FillBlock(c: Checksum, dest: Bytes, block: nat, data: Bytes, begin: bool)
    requires block <= BLOCK_SIZE && BLOCK_SIZE - block < HEADER_SIZE
    ensures dest + Emitted(c, block, data, begin) == (dest + Zeros(BLOCK_SIZE - block)) + Emitted(c, 0, data, begin)
  {}

  lemma EmitAtStart(c: Checksum, block: nat, data: Bytes, begin: bool)
    requires block + HEADER_SIZE <= BLOCK_SIZE
    ensures var n := Fragment(block, data);
            Emitted(c, block, data, begin)
              == if n == |data| then Physical(c, Kind(begin, true), data[..n])
                 else Physical(c, Kind(begin, false), data[..n]) + Emitted(c, block + HEADER_SIZE + n, data[n..], false)
  {
    hide Physical;
    var n := Fragment(block, data);
    if n == |data| { assert data[..n] == data; }
  }

  lemma EmitOne(c: Checksum, dest: Bytes, block: nat, data: Bytes, begin: bool)
    requires block + HEADER_SIZE <= BLOCK_SIZE
    ensures var n := Fragment(block, data);
            if n == |data| then dest + Emitted(c, block, data, begin)
              == dest + Physical(c, Kind(begin, true), data[..n])
            else dest + Emitted(c, block, data, begin)
                 == (dest + Physical(c, Kind(begin, false), data[..n])) + Emitted(c, block + HEADER_SIZE + n, data[n..],
                   false)
  {
    hide Physical, Fragment;
    EmitAtStart(c, block, data, begin);
  }

  // ----- the example of the format's description -----

  /** A record that spans three blocks. */
  lemma Spanning(c: Checksum, data: Bytes)
    requires |data| == 97270
    ensures Emitted(c, 1007, data, true)
         == Physical(c, FIRST, data[..31754]) + Physical(c, MIDDLE, data[31754..64515]) + Physical(c, LAST,
           data[64515..])
  {
    hide Emitted, Physical;
    var second, third := data[31754..], data[64515..];
    assert second[..32761] == data[31754..64515] && second[32761..] == third && third[..|third|] == third;
    EmitAtStart(c, 1007, data, true);
    FullBlock(c, BLOCK_SIZE, second, false);
    EmitAtStart(c, 0, second, false);
    FullBlock(c, BLOCK_SIZE, third, false);
    EmitAtStart(c, 0, third, false);
    assert Emitted(c, 0, third, false) == Physical(c, LAST, third);
    assert Emitted(c, 0, second, false) == Physical(c, MIDDLE, data[31754..64515]) + Physical(c, LAST, third);
  }

  /** Three records of 1000, 97270 and 8000 bytes: the first is in one piece, the second fills the
      first block, the second one and the third but for six bytes, and the third begins a block. */
  lemma ThreeRecords(c: Checksum, x: Bytes, y: Bytes, z: Bytes)
    requires |x| == 1000 && |y| == 97270 && |z| == 8000
    ensures var first := Physical(c, FULL, x) + Physical(c, FIRST, y[..31754]);
            var second := Physical(c, MIDDLE, y[31754..64515]);
            var third := Physical(c, LAST, y[64515..]) + Zeros(6);
            && |first| == |second| == |third| == BLOCK_SIZE
            && Log(c, [x, y, z]) == first + second + third + Physical(c, FULL, z)
  {
    hide Emitted, Physical, Log, Zeros;
    var one := Physical(c, FULL, x);
    var two := one + Emitted(c, 1007, y, true);
    assert [x] + [y] == [x, y] && [x, y] + [z] == [x, y, z] && x[..1000] == x && z[..8000] == z;
    LogOfOne(c, x);
    EmitAtStart(c, 0, x, true);
    LogSnoc(c, [x], y);
    Spanning(c, y);
    LogSnoc(c, [x, y], z);
    assert Log(c, [x, y]) == two && |two| % BLOCK_SIZE == BLOCK_SIZE - 6;
    FillBlock(c, two, BLOCK_SIZE - 6, z, true);
    EmitAtStart(c, 0, z, true);
  }

  lemma LogOfOne(c: Checksum, x: Bytes)
    ensures Log(c, [x]) == Emitted(c, 0, x, true)
  {
    hide Emitted;
    LogSnoc(c, [], x);
    assert [] + [x] == [x];
  }
}
