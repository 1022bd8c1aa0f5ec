/** Reading a log back, whole or cut off at any byte. */
module LogReaders {
  import opened InternalKeys
  import opened Coding
  import opened Logs

  // ----- what one call does to the state of the reader -----

  /** The next byte to look at, the end of what has been read from the file, and whether the
      last read came up short. */
  datatype ReadState = ReadState(pos: nat, end: nat, eof: bool)

  datatype Found = Piece(kind: Byte, data: Bytes) | Eof | BadRecord

  // The codes that the reader uses for an end and for a bad record are not kept apart from the
  // type in a header.
  const EOF_CODE: Byte := 5
  const BAD_RECORD_CODE: Byte := 6

  predicate IsEnd(p: Found) { p == Eof || (p.Piece? && p.kind == EOF_CODE) }

  predicate IsBad(p: Found) { p == BadRecord || (p.Piece? && p.kind == BAD_RECORD_CODE) }

  predicate Within(file: Bytes, s: ReadState) { s.pos <= s.end <= |file| }

  /** Too little is left of the block: the rest is a trailer, and the next block is read. */
  function Load(file: Bytes, s: ReadState): (t: ReadState)
    requires Within(file, s)
    ensures Within(file, t) && t.pos >= s.pos
  {
    if s.end - s.pos < HEADER_SIZE && !s.eof then
      var end := if s.end + BLOCK_SIZE <= |file| then s.end + BLOCK_SIZE else |file|;
      ReadState(s.end, end, end - s.end < BLOCK_SIZE)
    else s
  }

  function Length(b: Bytes): nat
    requires |b| >= HEADER_SIZE
  {
    b[4] as int + 256 * (b[5] as int)
  }

  /** The fragment at the front of the buffer `b`, and the dropped bytes that are reported. */
  function Parse(c: Checksum, b: Bytes, eof: bool): (r: (Found, seq<nat>))
    ensures r.0.Piece? ==> |r.0.data| + HEADER_SIZE <= |b|
    ensures r.0 != Eof ==> |b| >= HEADER_SIZE
  {
    if |b| < HEADER_SIZE then (Eof, [])
    else if HEADER_SIZE + Length(b) > |b| then (if eof then (Eof, []) else (BadRecord, [|b|]))
    else if b[6] == 0 && Length(b) == 0 then (BadRecord, [])
    else
      var data := b[HEADER_SIZE..HEADER_SIZE + Length(b)];
      if Unfixed(b[..4]) != Sum(c, b[6], data) then (BadRecord, [|b|]) else (Piece(b[6], data), [])
  }

  /** One physical record; anything but a good fragment empties the buffer. */
  function Step(c: Checksum, file: Bytes, s: ReadState): (r: (ReadState, Found, seq<nat>))
    requires Within(file, s)
    ensures Within(file, r.0) && (r.1 != Eof ==> r.0.pos > s.pos)
  {
    var t := Load(file, s);
    var p := Parse(c, file[t.pos..t.end], t.eof);
    (t.(pos := if p.0.Piece? then t.pos + HEADER_SIZE + |p.0.data| else t.end), p.0, p.1)
  }

  /** What an unfinished record amounts to when it is given up. */
  function Partial(scratch: Option<Bytes>): seq<nat> {
    if scratch.Some? && scratch.value != [] then [|scratch.value|] else []
  }

  /** The scratch after a physical record, the record that it completes, and what is reported. */
  datatype Progress = Progress(scratch: Option<Bytes>, record: Option<Bytes>, drops: seq<nat>)

  function Absorb(p: Found, scratch: Option<Bytes>): Progress
    requires !IsEnd(p)
  {
    var size := if scratch.Some? then |scratch.value| else 0;
    if IsBad(p) then Progress(None, None, if scratch.Some? then [size] else [])
    else
      var (kind, data) := (p.kind, p.data);
      if kind == FULL then Progress(None, Some(data), Partial(scratch))
      else if kind == FIRST then Progress(Some(data), None, Partial(scratch))
      else if kind == MIDDLE then
        if scratch.Some? then Progress(Some(scratch.value + data), None, []) else Progress(None, None, [|data|])
      else if kind == LAST then
        if scratch.Some? then Progress(None, Some(scratch.value + data), []) else Progress(None, None, [|data|])
      else Progress(None, None, [|data| + size])
  }

  /** One logical record; `scratch` holds the fragments since a first one. */
  function Assemble(c: Checksum, file: Bytes, s: ReadState,
                    scratch: Option<Bytes>): (r: (ReadState, Option<Bytes>, seq<nat>))
    requires Within(file, s)
    ensures Within(file, r.0) && (r.1.Some? ==> r.0.pos > s.pos)
    decreases |file| - s.pos
  {
    var step := Step(c, file, s);
    if IsEnd(step.1) then (step.0, None, step.2)
    else
      var a := Absorb(step.1, scratch);
      if a.record.Some? then (step.0, a.record, step.2 + a.drops)
      else
        var r := Assemble(c, file, step.0, a.scratch);
        (r.0, r.1, step.2 + a.drops + r.2)
  }

  lemma AssembleOnce(c: Checksum, file: Bytes, s: ReadState, scratch: Option<Bytes>)
    requires Within(file, s)
    ensures var (s', p, drops) := Step(c, file, s);
            if IsEnd(p) then Assemble(c, file, s, scratch) == (s', None, drops)
            else
              var a := Absorb(p, scratch);
              if a.record.Some? then Assemble(c, file, s, scratch) == (s', a.record, drops + a.drops)
              else
                var r := Assemble(c, file, s', a.scratch);
                Assemble(c, file, s, scratch) == (r.0, r.1, drops + a.drops + r.2)
  {}

  /** Reading until the end: the records and the reports. */
  function ReadAll(c: Checksum, file: Bytes, s: ReadState): (seq<Bytes>, seq<nat>)
    requires Within(file, s)
    decreases |file| - s.pos
  {
    var r := Assemble(c, file, s, None);
    if r.1.None? then ([], r.2)
    else
      var rest := ReadAll(c, file, r.0);
      ([r.1.value] + rest.0, r.2 + rest.1)
  }

  const START := ReadState(0, 0, false)

  // ----- whatever the file holds -----

  /** What has been read lies in one block, up to its end or up to the end of the file. */
  ghost predicate OnBlocks(file: Bytes, s: ReadState) {
    && Within(file, s)
    && (if s.eof then s.end == |file| else s.end % BLOCK_SIZE == 0)
    && (s.pos < s.end ==> s.pos / BLOCK_SIZE == (s.end - 1) / BLOCK_SIZE)
  }

  /** A fragment and where it is in the file. */
  datatype Placed = Placed(pos: nat, kind: Byte, data: Bytes) {
    function End(): nat { pos + HEADER_SIZE + |data| }
  }

  /** The fragment stands in the file, inside one block and with its checksum. */
  ghost predicate Stands(c: Checksum, file: Bytes, p: Placed) {
    && |p.data| < 0x1_0000 && p.End() <= |file|
    && file[p.pos..p.End()] == Physical(c, p.kind, p.data)
    && p.pos / BLOCK_SIZE == (p.End() - 1) / BLOCK_SIZE
  }

  /** At most the end of a block that is too short for a header is between the positions. */
  ghost predicate Adjoins(end: nat, pos: nat) {
    end == pos || (end < pos < end + HEADER_SIZE && pos % BLOCK_SIZE == 0)
  }

  ghost function Joined(ps: seq<Placed>): Bytes {
    if ps == [] then [] else Joined(ps[..|ps|-1]) + ps[|ps|-1].data
  }

  /** Fragments of the file, one right after the other. */
  ghost predicate Chain(c: Checksum, file: Bytes, ps: seq<Placed>) {
    && (forall i :: 0 <= i < |ps| ==> Stands(c, file, ps[i]))
    && forall i :: 0 < i < |ps| ==> Adjoins(ps[i-1].End(), ps[i].pos)
  }

  /** A record begun: a first fragment and middle ones. */
  ghost predicate Begun(c: Checksum, file: Bytes, ps: seq<Placed>) {
    ps != [] && Chain(c, file, ps) && ps[0].kind == FIRST && forall i :: 0 < i < |ps| ==> ps[i].kind == MIDDLE
  }

  /** A whole record: a full fragment, or a record begun and a last fragment. */
  ghost predicate IsRecord(c: Checksum, file: Bytes, ps: seq<Placed>) {
    && ps != [] && Chain(c, file, ps)
    && if |ps| == 1 then ps[0].kind == FULL else Begun(c, file, ps[..|ps|-1]) && ps[|ps|-1].kind == LAST
  }

  /** A whole fragment whose stored checksum is another than that of its type and data. */
  ghost predicate Damaged(c: Checksum, b: Bytes) {
    && |b| >= HEADER_SIZE && HEADER_SIZE + Length(b) <= |b| && (b[6] != 0 || Length(b) > 0)
    && b[..4] != Fixed(Sum(c, b[6], b[HEADER_SIZE..HEADER_SIZE + Length(b)]), 4)
  }

  lemma PhysicalParts(c: Checksum, kind: Byte, data: Bytes, b: Bytes)
    requires |data| < 0x1_0000 && Physical(c, kind, data) <= b
    ensures |b| >= HEADER_SIZE + |data| && b[..4] == Fixed(Sum(c, kind, data), 4) && b[6] == kind && Length(b) == |data|
    ensures b[HEADER_SIZE..HEADER_SIZE + |data|] == data
  {
    hide Fixed, Sum;
    var p := Physical(c, kind, data);
    assert b[..4] == p[..4];
    assert p[4] == |data| % 256 && p[5] == |data| / 256 && p[6] == kind;
    assert b[HEADER_SIZE..HEADER_SIZE + |data|] == p[HEADER_SIZE..];
  }

  /** A good fragment is one that the format has. */
  lemma PieceIff(c: Checksum, b: Bytes, eof: bool, kind: Byte, data: Bytes)
    ensures Parse(c, b, eof).0 == Piece(kind, data) <==>
              |data| < 0x1_0000 && Physical(c, kind, data) <= b && (kind != 0 || data != [])
  {
    hide Fixed, Unfixed;
    Widths();
    if Parse(c, b, eof).0 == Piece(kind, data) {
      UnfixedRoundTrip(b[..4]);
      assert b[..HEADER_SIZE + |data|] == Physical(c, kind, data);
    }
    if |data| < 0x1_0000 && Physical(c, kind, data) <= b {
      PhysicalParts(c, kind, data, b);
      FixedRoundTrip(Sum(c, kind, data), 4);
    }
  }

  /** A fragment with another checksum takes the rest of its block with it. */
  lemma DamagedIsDropped(c: Checksum, b: Bytes, eof: bool)
    requires Damaged(c, b)
    ensures Parse(c, b, eof) == (BadRecord, [|b|])
  {
    hide Fixed, Unfixed, Sum;
    Widths();
    UnfixedRoundTrip(b[..4]);
  }

  lemma LoadOnBlocks(file: Bytes, s: ReadState)
    requires OnBlocks(file, s)
    ensures OnBlocks(file, Load(file, s)) && Adjoins(s.pos, Load(file, s).pos)
  {}

  lemma StartOnBlocks(file: Bytes)
    ensures OnBlocks(file, START)
  {}

  lemma PieceStands(c: Checksum, file: Bytes, t: ReadState, p: Found)
    requires OnBlocks(file, t) && p.Piece? && p == Parse(c, file[t.pos..t.end], t.eof).0
    ensures Stands(c, file, Placed(t.pos, p.kind, p.data)) && t.pos + HEADER_SIZE + |p.data| <= t.end
  {
    hide Parse, Physical;
    PieceIff(c, file[t.pos..t.end], t.eof, p.kind, p.data);
    SliceOfSlice(file, t.pos, t.end, HEADER_SIZE + |p.data|);
  }

  lemma SliceOfSlice(file: Bytes, from: nat, to: nat, n: nat)
    requires from + n <= to <= |file|
    ensures file[from..to][..n] == file[from..from + n]
  {}

  /** A piece that a step yields stands in the file; a damaged one is dropped and reported. */
  lemma StepSound(c: Checksum, file: Bytes, s: ReadState)
    requires OnBlocks(file, s)
    ensures var (s', p, drops) := Step(c, file, s);
            var t := Load(file, s);
            && OnBlocks(file, s')
            && (p.Piece? ==> Stands(c, file, Placed(t.pos, p.kind, p.data)) && s'.pos == t.pos + HEADER_SIZE + |p.data|)
            && (Damaged(c, file[t.pos..t.end]) ==> s'.pos == t.end && p == BadRecord && drops == [t.end - t.pos])
  {
    hide Load, Parse, Damaged, Physical, Stands;
    LoadOnBlocks(file, s);
    var t := Load(file, s);
    var b := file[t.pos..t.end];
    var p := Parse(c, b, t.eof).0;
    if p.Piece? { PieceStands(c, file, t, p); }
    if Damaged(c, b) { DamagedIsDropped(c, b, t.eof); }
  }

  /** The fragments whose data the scratch holds, up to position `to`. */
  ghost predicate Carries(c: Checksum, file: Bytes, to: nat, scratch: Option<Bytes>, from: nat, ps: seq<Placed>) {
    scratch.Some? ==>
      Begun(c, file, ps) && Joined(ps) == scratch.value && ps[|ps|-1].End() == to && from <= ps[0].pos
  }

  /** The record that one call returns stands in the file, from `from` on and up to where the call
      leaves the reader. */
  ghost predicate Returned(c: Checksum, file: Bytes, from: nat, to: nat, record: Bytes, ps: seq<Placed>) {
    IsRecord(c, file, ps) && Joined(ps) == record && from <= ps[0].pos && ps[|ps|-1].End() == to
  }

  /** Whatever is in the file, a record is only made of good fragments that stand there in a row. */
  lemma {:induction false} AssembleSound(c: Checksum, file: Bytes, s: ReadState, scratch: Option<Bytes>, from: nat,
                                         ps: seq<Placed>)
    requires OnBlocks(file, s) && from <= s.pos && Carries(c, file, s.pos, scratch, from, ps)
    ensures var r := Assemble(c, file, s, scratch);
            && OnBlocks(file, r.0)
            && (r.1.Some? ==> exists qs :: Returned(c, file, from, r.0.pos, r.1.value, qs))
    decreases |file| - s.pos
  {
    hide Step, Absorb, Stands, Carries, Returned, Load, Adjoins;
    StepSound(c, file, s);
    LoadOnBlocks(file, s);
    var (s', p, drops) := Step(c, file, s);
    if !IsEnd(p) {
      var a, qs := Absorb(p, scratch), [];
      if IsBad(p) {
        NothingCarried(c, file, s', p, scratch, from);
      } else {
        var q := Placed(Load(file, s).pos, p.kind, p.data);
        qs := Longer(scratch, ps, q);
        AbsorbSound(c, file, s.pos, q, scratch, from, ps);
      }
      if a.record.None? { AssembleSound(c, file, s', a.scratch, from, qs); }
    }
  }

  lemma NothingCarried(c: Checksum, file: Bytes, s': ReadState, p: Found, scratch: Option<Bytes>, from: nat)
    requires !IsEnd(p) && IsBad(p)
    ensures Absorb(p, scratch).record.None? && Carries(c, file, s'.pos, Absorb(p, scratch).scratch, from, [])
  {}

  ghost function Longer(scratch: Option<Bytes>, ps: seq<Placed>, q: Placed): seq<Placed> {
    if scratch.Some? && (q.kind == MIDDLE || q.kind == LAST) then ps + [q] else [q]
  }

  /** One good fragment more. */
  lemma AbsorbSound(c: Checksum, file: Bytes, to: nat, q: Placed, scratch: Option<Bytes>, from: nat, ps: seq<Placed>)
    requires from <= to && Carries(c, file, to, scratch, from, ps) && Stands(c, file, q) && Adjoins(to, q.pos)
    requires !IsEnd(Piece(q.kind, q.data)) && !IsBad(Piece(q.kind, q.data))
    ensures var a, qs := Absorb(Piece(q.kind, q.data), scratch), Longer(scratch, ps, q);
            && Carries(c, file, q.End(), a.scratch, from, qs)
            && (a.record.Some? ==> Returned(c, file, from, q.End(), a.record.value, qs))
  {
    hide Stands;
    if scratch.Some? && (q.kind == MIDDLE || q.kind == LAST) {
      assert (ps + [q])[..|ps|] == ps;
    } else {
      assert Joined([q]) == q.data by { assert [q][..0] == []; }
    }
  }

  /** The fragments of each record; a record starts where the one before it has ended. */
  ghost predicate Stand(c: Checksum, file: Bytes, from: nat, records: seq<Bytes>, pss: seq<seq<Placed>>) {
    && |pss| == |records|
    && (forall k :: 0 <= k < |pss| ==>
       IsRecord(c, file, pss[k]) && Joined(pss[k]) == records[k] && from <= pss[k][0].pos)
    && forall k :: 0 < k < |pss| ==> pss[k-1][|pss[k-1]|-1].End() <= pss[k][0].pos
  }

  /** All records read from a file, damaged or not, stand in it one behind the other. */
  lemma {:induction false} FileSound(c: Checksum, file: Bytes, s: ReadState)
    requires OnBlocks(file, s)
    ensures exists pss :: Stand(c, file, s.pos, ReadAll(c, file, s).0, pss)
    decreases |file| - s.pos
  {
    hide OnBlocks, Assemble, Returned, Stand;
    FirstSound(c, file, s);
    var r := Assemble(c, file, s, None);
    if r.1.None? {
      NoneStand(c, file, s.pos);
      assert ReadAll(c, file, s).0 == [];
    } else {
      var qs :| Returned(c, file, s.pos, r.0.pos, r.1.value, qs);
      FileSound(c, file, r.0);
      var pss :| Stand(c, file, r.0.pos, ReadAll(c, file, r.0).0, pss);
      OneMoreStands(c, file, s.pos, r.0.pos, r.1.value, qs, ReadAll(c, file, r.0).0, pss);
      assert Stand(c, file, s.pos, ReadAll(c, file, s).0, [qs] + pss);
    }
  }

  lemma NoneStand(c: Checksum, file: Bytes, from: nat)
    ensures Stand(c, file, from, [], [])
  {}

  lemma OneMoreStands(c: Checksum, file: Bytes, from: nat, to: nat, record: Bytes, qs: seq<Placed>,
                      records: seq<Bytes>, pss: seq<seq<Placed>>)
    requires from <= to && Returned(c, file, from, to, record, qs) && Stand(c, file, to, records, pss)
    ensures Stand(c, file, from, [record] + records, [qs] + pss)
  {
    hide Begun, Chain;
  }

  lemma FirstSound(c: Checksum, file: Bytes, s: ReadState)
    requires OnBlocks(file, s)
    ensures Within(file, s)
    ensures var r := Assemble(c, file, s, None);
            OnBlocks(file, r.0) && (r.1.Some? ==> exists qs :: Returned(c, file, s.pos, r.0.pos, r.1.value, qs))
  {
    AssembleSound(c, file, s, None, s.pos, []);
  }

  /** A file of one block at most that begins with a damaged fragment has no record, and all of it is
      reported. */
  lemma NothingAfterDamage(c: Checksum, file: Bytes)
    requires |file| <= BLOCK_SIZE && Damaged(c, file)
    ensures ReadAll(c, file, START) == ([], [|file|])
  {
    hide Damaged, Parse;
    assert file[0..|file|] == file;
    StartOnBlocks(file);
    StepSound(c, file, START);
    EndOfFile(c, file, Step(c, file, START).0);
    assert [|file|] + [] == [|file|];
  }

  lemma EndOfFile(c: Checksum, file: Bytes, s: ReadState)
    requires OnBlocks(file, s) && s.pos == s.end == |file|
    ensures Assemble(c, file, s, None).1 == None && Assemble(c, file, s, None).2 == []
  {
    assert file[s.pos..s.end] == [] && file[|file|..|file|] == [];
  }

  function Total(drops: seq<nat>): nat {
    if drops == [] then 0 else Total(drops[..|drops|-1]) + drops[|drops|-1]
  }

  lemma {:induction false} TotalOfBoth(a: seq<nat>, b: seq<nat>)
    ensures Total(a + b) == Total(a) + Total(b)
  {
    if b == [] {
      assert a + b == a;
    } else {
      assert (a + b)[..|a + b|-1] == a + b[..|b|-1];
      TotalOfBoth(a, b[..|b|-1]);
    }
  }

  /** What one call comes by: the data of good fragments and the blocks' rests given up. */
  ghost function Passed(c: Checksum, file: Bytes, s: ReadState, scratch: Option<Bytes>): nat
    requires Within(file, s)
    decreases |file| - s.pos
  {
    var (s', p, drops) := Step(c, file, s);
    if IsEnd(p) then 0
    else
      var a := Absorb(p, scratch);
      Total(drops) + (if IsBad(p) then 0 else |p.data|)
      + if a.record.Some? then 0 else Passed(c, file, s', a.scratch)
  }

  function Size(b: Option<Bytes>): nat { if b.Some? then |b.value| else 0 }

  /** Every byte that a call comes by is returned or reported; only the record begun when the file
      ends goes without a report. */
  lemma {:induction false} NothingIsLost(c: Checksum, file: Bytes, s: ReadState, scratch: Option<Bytes>)
    requires Within(file, s)
    ensures var (s', record, drops) := Assemble(c, file, s, scratch);
            var all := Size(scratch) + Passed(c, file, s, scratch);
            Total(drops) + Size(record) <= all && (record.Some? ==> Total(drops) + Size(record) == all)
    decreases |file| - s.pos
  {
    hide Step;
    var (s', p, drops) := Step(c, file, s);
    if !IsEnd(p) {
      var a := Absorb(p, scratch);
      AbsorbLosesNothing(p, scratch);
      TotalOfBoth(drops, a.drops);
      if a.record.None? {
        NothingIsLost(c, file, s', a.scratch);
        TotalOfBoth(drops + a.drops, Assemble(c, file, s', a.scratch).2);
      }
    } else {
      EndIsSilent(c, file, s);
    }
  }

  lemma EndIsSilent(c: Checksum, file: Bytes, s: ReadState)
    requires Within(file, s) && IsEnd(Step(c, file, s).1)
    ensures Step(c, file, s).2 == []
  {}

  lemma AbsorbLosesNothing(p: Found, scratch: Option<Bytes>)
    requires !IsEnd(p)
    ensures var a := Absorb(p, scratch);
            Total(a.drops) + Size(a.record) + Size(a.scratch) == Size(scratch) + if IsBad(p) then 0 else |p.data|
  {
    forall n: nat ensures Total([n]) == n { assert [n][..0] == []; }
  }

  // ----- the reader -----

  class Reader {
    const checksum: Checksum
    const file: Bytes
    var filePos: nat
    var buffer: Bytes
    var eof: bool
    var reported: seq<nat>

    constructor (checksum: Checksum, file: Bytes)
      ensures Valid() && State() == START && reported == []
      ensures this.checksum == checksum && this.file == file
    {
      hide OnBlocks;
      this.checksum, this.file := checksum, file;
      filePos, buffer, eof, reported := 0, [], false, [];
      StartOnBlocks(file);
    }

    ghost predicate Buffered()
      reads this
    {
      |buffer| <= filePos <= |file| && buffer == file[filePos - |buffer|..filePos]
    }

    ghost predicate Valid()
      reads this
    {
      Buffered() && OnBlocks(file, State())
    }

    ghost function State(): ReadState
      requires Buffered()
      reads this
    {
      ReadState(filePos - |buffer|, filePos, eof)
    }

    method Refill()
      requires Buffered()
      modifies this
      ensures Buffered() && State() == Load(file, old(State())) && reported == old(reported)
    {
      if |buffer| < HEADER_SIZE && !eof {
        var end := if filePos + BLOCK_SIZE <= |file| then filePos + BLOCK_SIZE else |file|;
        buffer := file[filePos..end];
        eof := |buffer| < BLOCK_SIZE;
        filePos := end;
      }
    }

    method TakeFragment() returns (r: Found)
      requires Buffered()
      modifies `buffer, `reported
      ensures Buffered()
      ensures var p := Parse(checksum, old(buffer), eof);
              r == p.0 && reported == old(reported) + p.1
              && |buffer| == if r.Piece? then old(|buffer|) - HEADER_SIZE - |r.data| else 0
    {
      hide Unfixed, Sum;
      var b := buffer;
      if |b| < HEADER_SIZE {
        buffer := [];
        return Eof;
      }
      var length := b[4] as int + 256 * (b[5] as int);
      if HEADER_SIZE + length > |b| {
        buffer := [];
        if eof { return Eof; }
        reported := reported + [|b|];
        return BadRecord;
      }
      if b[6] == 0 && length == 0 {
        buffer := [];
        return BadRecord;
      }
      var data := b[HEADER_SIZE..HEADER_SIZE + length];
      if Unfixed(b[..4]) != Sum(checksum, b[6], data) {
        buffer := [];
        reported := reported + [|b|];
        return BadRecord;
      }
      buffer := b[HEADER_SIZE + length..];
      return Piece(b[6], data);
    }

    method ReadPhysicalRecord() returns (r: Found)
      requires Valid()
      modifies this
      ensures Valid()
      ensures var step := Step(checksum, file, old(State()));
              State() == step.0 && r == step.1 && reported == old(reported) + step.2
      ensures r.Piece? ==> Stands(checksum, file, Placed(State().pos - HEADER_SIZE - |r.data|, r.kind, r.data))
      ensures var t := Load(file, old(State()));
              Damaged(checksum, file[t.pos..t.end]) ==>
                r == BadRecord && State().pos == t.end && reported == old(reported) + [t.end - t.pos]
    {
      hide Load, Parse, OnBlocks, Stands, Damaged;
      StepSound(checksum, file, State());
      Refill();
      ghost var t := State();
      assert buffer == file[t.pos..t.end];
      r := TakeFragment();
    }

    method Handle(p: Found, scratch: Option<Bytes>) returns (scratch': Option<Bytes>, record: Option<Bytes>)
      requires !IsEnd(p)
      modifies `reported
      ensures old(reported) <= reported
      ensures Progress(scratch', record, reported[|old(reported)|..]) == Absorb(p, scratch)
    {
      scratch', record := None, None;
      if IsBad(p) {
        if scratch.Some? { reported := reported + [|scratch.value|]; }
      } else {
        var kind, data := p.kind, p.data;
        if kind == FULL {
          if scratch.Some? && scratch.value != [] { reported := reported + [|scratch.value|]; }
          record := Some(data);
        } else if kind == FIRST {
          if scratch.Some? && scratch.value != [] { reported := reported + [|scratch.value|]; }
          scratch' := Some(data);
        } else if kind == MIDDLE {
          if scratch.None? { reported := reported + [|data|]; } else { scratch' := Some(scratch.value + data); }
        } else if kind == LAST {
          if scratch.None? { reported := reported + [|data|]; } else { record := Some(scratch.value + data); }
        } else {
          reported := reported + [|data| + if scratch.Some? then |scratch.value| else 0];
        }
      }
    }

    method ReadRecord() returns (record: Option<Bytes>)
      requires Valid()
      modifies this
      ensures Valid()
      ensures var r := Assemble(checksum, file, old(State()), None);
              State() == r.0 && record == r.1 && reported == old(reported) + r.2
      ensures record.Some? ==>
                exists ps :: Returned(checksum, file, old(State()).pos, State().pos, record.value, ps)
    {
      hide Step, Absorb, OnBlocks, Returned, Stands, Damaged, Assemble;
      FirstSound(checksum, file, State());
      var scratch: Option<Bytes> := None;
      ghost var whole := Assemble(checksum, file, State(), None);
      ghost var before := reported;
      while true
        invariant Valid()
        invariant Rest(whole, before, Assemble(checksum, file, State(), scratch))
        decreases |file| - State().pos
      {
        AssembleOnce(checksum, file, State(), scratch);
        var p := ReadPhysicalRecord();
        if IsEnd(p) { return None; }
        ghost var mid := reported;
        scratch, record := Handle(p, scratch);
        assert reported == mid + reported[|mid|..];
        if record.Some? { return; }
      }
    }

    /** What is left to do, given what was reported since the start. */
    ghost predicate Rest(whole: (ReadState, Option<Bytes>, seq<nat>), before: seq<nat>,
                         r: (ReadState, Option<Bytes>, seq<nat>))
      reads `reported
    {
      whole.0 == r.0 && whole.1 == r.1 && before + whole.2 == reported + r.2
    }
  }
}
