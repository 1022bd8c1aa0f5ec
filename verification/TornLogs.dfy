/** What a reader makes of a log that was cut off at any byte. */
module TornLogs {
  import opened InternalKeys
  import opened Coding
  import opened Logs
  import opened LogReaders

  // ----- one fragment -----

  lemma ParseWhole(c: Checksum, b: Bytes, eof: bool, kind: Byte, data: Bytes)
    requires |data| < 0x1_0000 && kind != 0 && Physical(c, kind, data) <= b
    ensures Parse(c, b, eof) == (Piece(kind, data), [])
  {
    hide Fixed, Unfixed, Sum, Physical;
    PieceIff(c, b, eof, kind, data);
  }

  lemma ParseTorn(c: Checksum, b: Bytes, kind: Byte, data: Bytes)
    requires |data| < 0x1_0000 && b < Physical(c, kind, data)
    ensures Parse(c, b, true) == (Eof, [])
  {
    hide Fixed, Unfixed, Physical;
    if |b| >= HEADER_SIZE {
      var p := Physical(c, kind, data);
      PhysicalParts(c, kind, data, p);
      assert b[4] == p[4] && b[5] == p[5];
    }
  }

  // ----- where the reader is -----

  function BlockStart(q: nat): nat { q - q % BLOCK_SIZE }

  /** The reader is at byte `q` of a file of `n` bytes, and has read up to the end of the block
      of `q` or up to the end of the file. */
  ghost predicate OnTrack(s: ReadState, q: nat, n: nat) {
    && s.pos == q <= s.end <= n
    && if s.eof then s.end == n && n <= BlockStart(q) + BLOCK_SIZE
       else s.end % BLOCK_SIZE == 0 && s.end - q <= BLOCK_SIZE
  }

  /** The first position at or after `q` where a header fits in its block. */
  function Skip(q: nat): (r: nat)
    ensures r >= q && r % BLOCK_SIZE + HEADER_SIZE <= BLOCK_SIZE
  {
    if BLOCK_SIZE - q % BLOCK_SIZE < HEADER_SIZE then BlockStart(q) + BLOCK_SIZE else q
  }

  /** Everything up to the end of the block of `q`, or of the file, is in the buffer. */
  ghost predicate Ready(t: ReadState, q: nat, n: nat) {
    t.pos == q && t.end <= n && t.end <= BlockStart(q) + BLOCK_SIZE && q <= t.end
    && (if t.eof then t.end == n else t.end == BlockStart(q) + BLOCK_SIZE)
  }

  lemma BoundaryWithin(q: nat, end: nat)
    requires end % BLOCK_SIZE == 0 && 0 <= end - q < HEADER_SIZE
    ensures Skip(q) == end && end == if q % BLOCK_SIZE == 0 then q else BlockStart(q) + BLOCK_SIZE
  {
    var k, r := end / BLOCK_SIZE, q % BLOCK_SIZE;
    assert end == k * BLOCK_SIZE;
    if end > q { assert q / BLOCK_SIZE == k - 1; }
  }

  lemma BoundaryBeyond(q: nat, end: nat)
    requires end % BLOCK_SIZE == 0 && HEADER_SIZE <= end - q <= BLOCK_SIZE
    ensures Skip(q) == q && end == BlockStart(q) + BLOCK_SIZE
  {
    var k := end / BLOCK_SIZE;
    assert end == k * BLOCK_SIZE && q / BLOCK_SIZE == k - 1;
  }

  lemma LoadReady(file: Bytes, s: ReadState, q: nat)
    requires OnTrack(s, q, |file|) && Within(file, s)
    ensures var t := Load(file, s);
            Ready(t, Skip(q), |file|) || (t.eof && t.end == |file| && t.end - t.pos < HEADER_SIZE
              && |file| < Skip(q) + HEADER_SIZE)
  {
    var t := Load(file, s);
    if s.end - s.pos < HEADER_SIZE && !s.eof {
      BoundaryWithin(q, s.end);
      assert s.end % BLOCK_SIZE == 0;
    } else if !s.eof {
      BoundaryBeyond(q, s.end);
    }
  }

  /** `all` has the bytes `part` at position `q`. */
  ghost predicate Holds(all: Bytes, q: nat, part: Bytes) {
    q + |part| <= |all| && all[q..q + |part|] == part
  }

  /** A fragment that is wholly in the file is parsed; one that is cut off is the end. */
  lemma ParseAt(c: Checksum, all: Bytes, n: nat, t: ReadState, q: nat, kind: Byte, data: Bytes)
    requires n <= |all| && Ready(t, q, n) && q % BLOCK_SIZE + HEADER_SIZE + |data| <= BLOCK_SIZE
    requires kind != 0 && Holds(all, q, Physical(c, kind, data))
    ensures Parse(c, all[..n][t.pos..t.end], t.eof)
         == if q + HEADER_SIZE + |data| <= n then (Piece(kind, data), []) else (Eof, [])
  {
    hide Physical, Parse;
    var p, b := Physical(c, kind, data), all[..n][t.pos..t.end];
    assert b == all[q..t.end];
    if q + HEADER_SIZE + |data| <= n {
      assert b[..|p|] == all[q..q + |p|] == p;
      ParseWhole(c, b, t.eof, kind, data);
    } else {
      assert |b| < |p|;
      assert p[..|b|] == all[q..q + |p|][..|b|] == b;
      ParseTorn(c, b, kind, data);
    }
  }

  lemma StepPiece(c: Checksum, all: Bytes, n: nat, s: ReadState, q: nat, kind: Byte, data: Bytes)
    requires n <= |all| && OnTrack(s, q, n) && Skip(q) % BLOCK_SIZE + HEADER_SIZE + |data| <= BLOCK_SIZE
    requires kind != 0 && Holds(all, Skip(q), Physical(c, kind, data))
    ensures var stop, r := Skip(q) + HEADER_SIZE + |data|, Step(c, all[..n], s);
            if stop <= n then r.1 == Piece(kind, data) && r.2 == [] && OnTrack(r.0, stop, n)
            else r.1 == Eof && r.2 == []
  {
    hide Physical, Parse, Load, Skip, Holds, OnTrack, Ready;
    InFile(s, q, n);
    LoadReady(all[..n], s, q);
    var t := Load(all[..n], s);
    if Ready(t, Skip(q), n) {
      ReadyPosition(t, Skip(q), n);
      ParseAt(c, all, n, t, Skip(q), kind, data);
      StaysOnTrack(t, Skip(q), n, HEADER_SIZE + |data|);
    } else {
      TooShort(c, all[..n][t.pos..t.end], t.eof);
    }
  }

  lemma InFile(s: ReadState, q: nat, n: nat)
    requires OnTrack(s, q, n)
    ensures s.pos == q <= s.end <= n
  {}

  lemma ReadyPosition(t: ReadState, q: nat, n: nat)
    requires Ready(t, q, n)
    ensures t.pos == q
  {}

  lemma TooShort(c: Checksum, b: Bytes, eof: bool)
    requires |b| < HEADER_SIZE
    ensures Parse(c, b, eof) == (Eof, [])
  {}

  lemma StaysOnTrack(t: ReadState, q: nat, n: nat, k: nat)
    requires Ready(t, q, n) && q % BLOCK_SIZE + k <= BLOCK_SIZE
    ensures q + k <= n ==> OnTrack(t.(pos := q + k), q + k, n)
  {
    if q + k <= n {
      var start := BlockStart(q);
      assert start % BLOCK_SIZE == 0;
      SameBlockStart(q, k);
    }
  }

  lemma SameBlockStart(q: nat, k: nat)
    requires q % BLOCK_SIZE + k <= BLOCK_SIZE
    ensures BlockStart(q) <= BlockStart(q + k) <= q + k && (BlockStart(q) + BLOCK_SIZE) % BLOCK_SIZE == 0
  {
    var d := q / BLOCK_SIZE;
    assert q == d * BLOCK_SIZE + q % BLOCK_SIZE;
    assert (q + k) / BLOCK_SIZE >= d;
  }

  // ----- one record -----

  lemma HoldsParts(all: Bytes, q: nat, a: Bytes, b: Bytes)
    requires Holds(all, q, a + b)
    ensures Holds(all, q, a) && Holds(all, q + |a|, b)
  {
    assert all[q..q + |a|] == (a + b)[..|a|] == a;
    assert all[q + |a|..q + |a| + |b|] == (a + b)[|a|..] == b;
  }

  /** What is written at `q` begins where a header fits. */
  lemma SkipPadding(c: Checksum, q: nat, data: Bytes, begin: bool)
    ensures Emitted(c, q % BLOCK_SIZE, data, begin)
            == Zeros(Skip(q) - q) + Emitted(c, Skip(q) % BLOCK_SIZE, data, begin)
  {
    hide Physical, Fragment;
    if BLOCK_SIZE - q % BLOCK_SIZE < HEADER_SIZE {
      assert Skip(q) % BLOCK_SIZE == 0 by { SameBlockStart(q, 0); }
    } else {
      assert Zeros(0) + Emitted(c, q % BLOCK_SIZE, data, begin) == Emitted(c, q % BLOCK_SIZE, data, begin);
    }
  }

  ghost function Piecewise(c: Checksum, q: nat, data: Bytes, begin: bool): Bytes
    requires q % BLOCK_SIZE + HEADER_SIZE <= BLOCK_SIZE
  {
    var f := Fragment(q % BLOCK_SIZE, data);
    Physical(c, Kind(begin, f == |data|), data[..f]) + Tail(c, q, data, f)
  }

  ghost function Tail(c: Checksum, q: nat, data: Bytes, f: nat): Bytes
    requires f <= |data|
  {
    if f == |data| then [] else Emitted(c, (q + HEADER_SIZE + f) % BLOCK_SIZE, data[f..], false)
  }

  /** One fragment of what is written, and the rest. */
  lemma FirstFragment(c: Checksum, q: nat, data: Bytes, begin: bool)
    requires q % BLOCK_SIZE + HEADER_SIZE <= BLOCK_SIZE
    ensures Emitted(c, q % BLOCK_SIZE, data, begin) == Piecewise(c, q, data, begin)
  {
    hide Physical, Kind, Emitted, Fragment, Tail;
    var block := q % BLOCK_SIZE;
    EmitAtStart(c, block, data, begin);
    TailAfter(c, q, data, Fragment(block, data));
  }

  lemma TailAfter(c: Checksum, q: nat, data: Bytes, f: nat)
    requires f <= |data| && (f == |data| || q % BLOCK_SIZE + HEADER_SIZE + f == BLOCK_SIZE)
    ensures Tail(c, q, data, f)
         == if f == |data| then [] else Emitted(c, q % BLOCK_SIZE + HEADER_SIZE + f, data[f..], false)
  {
    hide Emitted;
    if f < |data| {
      NextBlock(q, HEADER_SIZE + f);
      FullBlock(c, BLOCK_SIZE, data[f..], false);
    }
  }

  lemma NextBlock(q: nat, k: nat)
    requires q % BLOCK_SIZE + k == BLOCK_SIZE
    ensures (q + k) % BLOCK_SIZE == 0
  {}

  lemma KindIsNonZero(begin: bool, end: bool)
    ensures Kind(begin, end) != 0
    ensures Kind(begin, end) == if end then (if begin then FULL else LAST) else (if begin then FIRST else MIDDLE)
  {}

  lemma FragmentShrinks(q: nat, data: Bytes)
    requires q % BLOCK_SIZE == 0 && data != []
    ensures Skip(q) == q && Fragment(0, data) > 0
  {}

  function Scratch(begin: bool, read: Bytes): Option<Bytes> { if begin then None else Some(read) }

  /** What a record is assembled to after one more fragment. */
  lemma AssemblePiece(c: Checksum, file: Bytes, s: ReadState, begin: bool, end: bool, read: Bytes, piece: Bytes)
    requires Within(file, s) && (begin ==> read == [])
    requires Step(c, file, s).1 == Piece(Kind(begin, end), piece) && Step(c, file, s).2 == []
    ensures end ==> Assemble(c, file, s, Scratch(begin, read)) == (Step(c, file, s).0, Some(read + piece), [])
    ensures !end ==>
            Assemble(c, file, s, Scratch(begin, read)) == Assemble(c, file, Step(c, file, s).0, Some(read + piece))
  {
    hide Step;
    assert [] + piece == piece;
    var step := Step(c, file, s);
    var a := Absorb(step.1, Scratch(begin, read));
    assert a.drops == [];
    if !end {
      var r := Assemble(c, file, step.0, Some(read + piece));
      assert [] + [] + r.2 == r.2;
    }
  }

  lemma {:induction false} ReadEmitted(c: Checksum, all: Bytes, n: nat, s: ReadState, q: nat, data: Bytes, begin: bool,
                                       read: Bytes)
    requires n <= |all| && OnTrack(s, q, n) && Within(all[..n], s)
             && Holds(all, q, Emitted(c, q % BLOCK_SIZE, data, begin))
    requires if begin then read == [] else q % BLOCK_SIZE == 0
    ensures var stop := q + |Emitted(c, q % BLOCK_SIZE, data, begin)|;
            var r := Assemble(c, all[..n], s, Scratch(begin, read));
            r.2 == [] && if stop <= n then r.1 == Some(read + data) && OnTrack(r.0, stop, n) else r.1 == None
    decreases |data|, if begin then 1 else 0
  {
    hide Emitted, Physical, Step, Skip, Holds, OnTrack, Fragment, Kind, Assemble;
    var p := Skip(q);
    var f := Fragment(p % BLOCK_SIZE, data);
    var kind, piece := Kind(begin, f == |data|), data[..f];
    var tail := Tail(c, p, data, f);
    SkipPadding(c, q, data, begin);
    FirstFragment(c, p, data, begin);
    HoldsParts(all, q, Zeros(p - q), Physical(c, kind, piece) + tail);
    HoldsParts(all, p, Physical(c, kind, piece), tail);
    KindIsNonZero(begin, f == |data|);
    StepPiece(c, all, n, s, q, kind, piece);
    var step := Step(c, all[..n], s);
    var stop := p + HEADER_SIZE + f;
    if stop > n {
      EndOfLog(c, all[..n], s, Scratch(begin, read));
    } else {
      AssemblePiece(c, all[..n], s, begin, f == |data|, read, piece);
      if f == |data| {
        assert piece == data;
      } else {
        NextBlock(p, HEADER_SIZE + f);
        if !begin { FragmentShrinks(q, data); }
        ReadEmitted(c, all, n, step.0, stop, data[f..], false, read + piece);
        assert read + piece + data[f..] == read + data;
      }
    }
  }

  lemma EndOfLog(c: Checksum, file: Bytes, s: ReadState, scratch: Option<Bytes>)
    requires Within(file, s) && Step(c, file, s).1 == Eof && Step(c, file, s).2 == []
    ensures Assemble(c, file, s, scratch).1 == None && Assemble(c, file, s, scratch).2 == []
  {}
  // ----- whole logs -----

  /** How many records lie wholly in the first `n` bytes of the log. */
  ghost function Complete(c: Checksum, records: seq<Bytes>, n: nat): (k: nat)
    ensures k <= |records|
  {
    if records == [] then 0
    else if |Log(c, records)| <= n then |records|
    else Complete(c, records[..|records|-1], n)
  }

  function Start(c: Checksum, records: seq<Bytes>, k: nat): nat
    requires k <= |records|
  {
    |Log(c, records[..k])|
  }

  /** Record `k` is written where the log of the ones before ends. */
  lemma {:induction false} RecordAt(c: Checksum, records: seq<Bytes>, k: nat)
    requires k < |records|
    ensures var q := Start(c, records, k);
            Holds(Log(c, records), q, Emitted(c, q % BLOCK_SIZE, records[k], true))
            && Start(c, records, k + 1) == q + |Emitted(c, q % BLOCK_SIZE, records[k], true)|
    decreases |records|
  {
    hide Emitted;
    var init := records[..|records|-1];
    var q := Start(c, records, k);
    assert records[..k + 1][..k] == records[..k] && records[..k + 1][k] == records[k];
    if k == |records| - 1 {
      assert records[..k] == init && records[..k + 1] == records;
    } else {
      RecordAt(c, init, k);
      assert init[..k] == records[..k] && init[..k + 1] == records[..k + 1];
      StillHolds(Log(c, init), Log(c, records), q, Emitted(c, q % BLOCK_SIZE, records[k], true));
    }
  }

  lemma StillHolds(a: Bytes, b: Bytes, q: nat, part: Bytes)
    requires Holds(a, q, part) && a <= b
    ensures Holds(b, q, part)
  {
    assert b[q..q + |part|] == a[q..q + |part|];
  }

  lemma {:induction false} StartsGrow(c: Checksum, records: seq<Bytes>, i: nat, j: nat)
    requires i <= j <= |records|
    ensures Start(c, records, i) <= Start(c, records, j)
  {
    hide Log, Emitted;
    if i < j {
      StartsGrow(c, records, i, j - 1);
      RecordAt(c, records, j - 1);
    }
  }

  /** A record is wholly in the first `n` bytes exactly when it is one of the complete ones. */
  lemma {:induction false} CompleteIff(c: Checksum, records: seq<Bytes>, n: nat, k: nat)
    requires k <= |records|
    ensures k <= Complete(c, records, n) <==> Start(c, records, k) <= n || k == 0
    decreases |records|
  {
    hide Log, Emitted;
    assert records[..|records|] == records;
    StartsGrow(c, records, k, |records|);
    if records != [] && |Log(c, records)| > n && k < |records| {
      var init := records[..|records|-1];
      assert init[..k] == records[..k];
      CompleteIff(c, init, n, k);
    }
  }

  lemma {:induction false} ReadFrom(c: Checksum, records: seq<Bytes>, n: nat, k: nat, s: ReadState)
    requires k <= |records| && n <= |Log(c, records)| && OnTrack(s, Start(c, records, k), n)
             && Within(Log(c, records)[..n], s)
    ensures k <= Complete(c, records, n)
    ensures ReadAll(c, Log(c, records)[..n], s) == (records[k..Complete(c, records, n)], [])
    decreases |records| - k
  {
    hide Log, Emitted, Assemble, OnTrack, Complete;
    var all, q := Log(c, records), Start(c, records, k);
    InFile(s, q, n);
    CompleteIff(c, records, n, k);
    if k == |records| {
      assert records[..k] == records;
      ReadAtEnd(c, all, n, s);
      NothingToRead(c, all[..n], s);
      assert records[k..Complete(c, records, n)] == [];
    } else {
      CompleteIff(c, records, n, k + 1);
      RecordAt(c, records, k);
      ReadEmitted(c, all, n, s, q, records[k], true, []);
      assert [] + records[k] == records[k];
      var r := Assemble(c, all[..n], s, None);
      if r.1.None? {
        NothingToRead(c, all[..n], s);
        assert Complete(c, records, n) == k && records[k..k] == [];
      } else {
        ReadFrom(c, records, n, k + 1, r.0);
        OneMore(c, all[..n], s);
        assert [records[k]] + records[k + 1..Complete(c, records, n)] == records[k..Complete(c, records, n)];
      }
    }
  }

  lemma ReadAtEnd(c: Checksum, all: Bytes, n: nat, s: ReadState)
    requires n <= |all| && OnTrack(s, n, n)
    ensures var r := Assemble(c, all[..n], s, None); r.1 == None && r.2 == []
  {
    hide Parse;
    LoadReady(all[..n], s, n);
    var t := Load(all[..n], s);
    TooShort(c, all[..n][t.pos..t.end], t.eof);
  }

  lemma NothingToRead(c: Checksum, file: Bytes, s: ReadState)
    requires Within(file, s) && Assemble(c, file, s, None).1 == None && Assemble(c, file, s, None).2 == []
    ensures ReadAll(c, file, s) == ([], [])
  {}

  lemma OneMore(c: Checksum, file: Bytes, s: ReadState)
    requires Within(file, s) && Assemble(c, file, s, None).1.Some? && Assemble(c, file, s, None).2 == []
    ensures var r := Assemble(c, file, s, None);
            ReadAll(c, file, s) == ([r.1.value] + ReadAll(c, file, r.0).0, ReadAll(c, file, r.0).1)
  {
    hide Assemble;
    var r := Assemble(c, file, s, None);
    assert [] + ReadAll(c, file, r.0).1 == ReadAll(c, file, r.0).1;
  }

  /** A log cut off at any byte gives exactly the records that are wholly in what is left, and
      nothing is reported. */
  lemma TornLogReadsCompleteRecords(c: Checksum, records: seq<Bytes>, n: nat)
    requires n <= |Log(c, records)|
    ensures ReadAll(c, Log(c, records)[..n], START) == (records[..Complete(c, records, n)], [])
  {
    hide Emitted, Assemble, ReadAll, Complete;
    assert records[..0] == [];
    ReadFrom(c, records, n, 0, START);
    assert records[0..Complete(c, records, n)] == records[..Complete(c, records, n)];
  }

  /** A log that is not cut off gives back what was written. */
  lemma LogRoundTrip(c: Checksum, records: seq<Bytes>)
    ensures ReadAll(c, Log(c, records), START) == (records, [])
  {
    hide Emitted, Assemble, ReadAll, Log;
    var all := Log(c, records);
    assert all[..|all|] == all && records[..|records|] == records;
    TornLogReadsCompleteRecords(c, records, |all|);
  }
}
