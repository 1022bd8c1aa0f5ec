/** Replaying log records: memtables filled from them and flushed to level 0. */
module Replays {
  import opened InternalKeys
  import opened Versions
  import opened Inputs
  import opened Picking
  import opened Invisibility
  import opened Builders
  import opened Manifests
  import opened Installs
  import opened Engine
  import opened ManifestLogs
  import opened Batches

  /** A memtable filled from log records, each with the sequence numbers in the record. */
  ghost function Filled(st: State, bs: seq<Batch>): State {
    if bs == [] then st
    else
      var b := bs[|bs|-1];
      WriteBatch(Filled(st, bs[..|bs|-1]).(lastSequence := if b.first == 0 then 0 else b.first - 1), b.ops)
  }

  /** Recovery flushes the memtable to level 0 at the end of a log, or when it is full. */
  ghost predicate MayReplay(st: State, chunks: seq<seq<Batch>>, files: seq<Option<FileMeta>>)
    decreases |chunks|
  {
    && |files| == |chunks|
    && (chunks != [] ==>
          && |st.version| == NUM_LEVELS
          && var full := Filled(st, chunks[0]);
             var frozen := full.(mem := [], imm := Some(full.mem));
             && |frozen.version| == NUM_LEVELS && MayFlush(frozen, files[0], 0)
             && MayReplay(FlushNext(frozen, files[0], 0), chunks[1..], files[1..]))
  }

  ghost function Replayed(st: State, chunks: seq<seq<Batch>>, files: seq<Option<FileMeta>>): State
    requires MayReplay(st, chunks, files)
    decreases |chunks|
  {
    if chunks == [] then st
    else
      var full := Filled(st, chunks[0]);
      Replayed(FlushNext(full.(mem := [], imm := Some(full.mem)), files[0], 0), chunks[1..], files[1..])
  }

  function Joined(chunks: seq<seq<Batch>>): seq<Batch> {
    if chunks == [] then [] else chunks[0] + Joined(chunks[1..])
  }

  function Written(tables: map<nat, FileMeta>, files: seq<Option<FileMeta>>): map<nat, FileMeta>
    decreases |files|
  {
    if files == [] then tables
    else Written(OneWrittenFile(tables, files[0]), files[1..])
  }

  lemma {:induction false} FilledOk(st: State, bs: seq<Batch>)
    requires Inv(st) && Follow(bs, st.lastSequence)
    ensures var r := Filled(st, bs);
            && Inv(r) && r.history == st.history + Writes(bs)
            && r == st.(mem := r.mem, history := r.history, lastSequence := LastAfter(st, bs))
  {
    hide Inv, WriteBatch, Follow, StampFrom;
    if bs == [] {
      assert st.history + [] == st.history;
    } else {
      var init, b := bs[..|bs|-1], bs[|bs|-1];
      FollowInit(bs, st.lastSequence);
      FilledOk(st, init);
      ReplayOne(Filled(st, init), b);
      assert st.history + Writes(init) + StampFrom(b.ops, b.first) == st.history + Writes(bs);
    }
  }

  function LastAfter(st: State, bs: seq<Batch>): nat { if bs == [] then st.lastSequence else LastOf(bs) }

  lemma FollowInit(bs: seq<Batch>, last: nat)
    requires bs != [] && Follow(bs, last)
    ensures var init, b := bs[..|bs|-1], bs[|bs|-1];
            && Follow(init, last) && last < b.first && b.Next() <= MAX_SEQUENCE
               && (if init == [] then last else LastOf(init)) < b.first
            && LastOf(bs) == b.Next() - 1
  {}

  lemma ReplayOne(st: State, b: Batch)
    requires Inv(st) && st.lastSequence < b.first && b.Next() <= MAX_SEQUENCE
    ensures var r := WriteBatch(st.(lastSequence := b.first - 1), b.ops);
            && Inv(r) && r.history == st.history + StampFrom(b.ops, b.first)
            && r == st.(mem := r.mem, history := r.history, lastSequence := b.Next() - 1)
  {
    hide Inv, WriteBatch, StampFrom;
    LoseSequenceKeepsInv(st, b.first - 1 - st.lastSequence);
    BatchWritten(st.(lastSequence := b.first - 1), b.ops);
  }

  lemma PresentAfterFlush(st: State, tables: map<nat, FileMeta>, file: Option<FileMeta>)
    requires |st.version| == NUM_LEVELS && SortedVersion(st.version) && NumbersUsed(st) && MayFlush(st, file, 0)
             && Present(st.version, tables)
    ensures Present(FlushNext(st, file, 0).version, OneWrittenFile(tables, file))
  {
    hide ValidFile, Placeable, SortedVersion, FreshNumber;
    if file.Some? { FlushMembers(st.version, file.value, 0); }
  }

  function OneWrittenFile(tables: map<nat, FileMeta>, file: Option<FileMeta>): map<nat, FileMeta> {
    if file.Some? then tables[file.value.number := file.value] else tables
  }

  ghost predicate AtRest(st: State) {
    Inv(st) && st.mem == [] && st.imm.None?
  }

  /** `r` is `st` with the writes of `bs` in tables. */
  ghost predicate Flushed(st: State, bs: seq<Batch>, r: State) {
    && AtRest(r) && r.snapshots == st.snapshots && r.job == st.job && r.floor == st.floor
    && r.history == st.history + Writes(bs) && r.lastSequence == LastAfter(st, bs)
  }

  lemma ReplayChunk(st: State, bs: seq<Batch>, file: Option<FileMeta>, tables: map<nat, FileMeta>)
    requires AtRest(st) && Follow(bs, st.lastSequence) && Present(st.version, tables)
    requires var full := Filled(st, bs);
             var frozen := full.(mem := [], imm := Some(full.mem));
                 |frozen.version| == NUM_LEVELS && MayFlush(frozen, file, 0)
    ensures var full := Filled(st, bs);
            var next := FlushNext(full.(mem := [], imm := Some(full.mem)), file, 0);
            Flushed(st, bs, next) && Present(next.version, OneWrittenFile(tables, file))
  {
    hide Inv, Present, MayFlush, FlushNext, Filled, Follow, Writes;
    FilledOk(st, bs);
    var full := Filled(st, bs);
    FilledGrows(st, bs);
    var frozen := full.(mem := [], imm := Some(full.mem));
    RotateKeepsInv(full);
    FlushKeepsInv(frozen, file, 0);
    FlushParts(frozen, file, tables);
  }

  lemma FlushedTwice(st: State, a: seq<Batch>, mid: State, b: seq<Batch>, r: State)
    requires Flushed(st, a, mid) && Flushed(mid, b, r)
    ensures Flushed(st, a + b, r)
  {
    hide AtRest, Writes;
    WritesConcat(a, b);
    assert st.history + Writes(a) + Writes(b) == st.history + (Writes(a) + Writes(b));
  }

  lemma {:induction false} ReplayOk(st: State, chunks: seq<seq<Batch>>, files: seq<Option<FileMeta>>,
                                    tables: map<nat, FileMeta>)
    requires AtRest(st) && MayReplay(st, chunks, files) && Present(st.version, tables)
             && Follow(Joined(chunks), st.lastSequence)
    ensures var r := Replayed(st, chunks, files);
            Flushed(st, Joined(chunks), r) && Present(r.version, Written(tables, files))
    decreases |chunks|
  {
    hide Inv, Present, MayFlush, FlushNext, Filled, Follow, Flushed, AtRest;
    if chunks == [] {
      NothingFlushed(st);
    } else {
      var full := Filled(st, chunks[0]);
      var next := FlushNext(full.(mem := [], imm := Some(full.mem)), files[0], 0);
      FollowFirst(chunks[0], Joined(chunks[1..]), st);
      ReplayChunk(st, chunks[0], files[0], tables);
      FlushedAtRest(st, chunks[0], next);
      ReplayOk(next, chunks[1..], files[1..], OneWrittenFile(tables, files[0]));
      FlushedTwice(st, chunks[0], next, Joined(chunks[1..]), Replayed(next, chunks[1..], files[1..]));
    }
  }

  lemma FollowFirst(a: seq<Batch>, b: seq<Batch>, st: State)
    requires Follow(a + b, st.lastSequence)
    ensures Follow(a, st.lastSequence) && Follow(b, LastAfter(st, a))
  {
    FollowParts(a, b, st.lastSequence);
    if a != [] { assert forall j :: 0 <= j < |b| ==> a[|a|-1].Next() <= b[j].first; }
  }

  lemma FlushedAtRest(st: State, bs: seq<Batch>, r: State)
    requires Flushed(st, bs, r)
    ensures AtRest(r) && r.lastSequence == LastAfter(st, bs)
  {}

  lemma NothingFlushed(st: State)
    requires AtRest(st)
    ensures Flushed(st, [], st)
  {
    assert st.history + [] == st.history;
  }

  lemma FilledGrows(st: State, bs: seq<Batch>)
    requires Follow(bs, st.lastSequence)
    ensures bs != [] ==> LastOf(bs) >= st.lastSequence
  {
    if bs != [] { assert bs[|bs|-1].first > st.lastSequence; }
  }

  lemma FlushParts(st: State, file: Option<FileMeta>, tables: map<nat, FileMeta>)
    requires Inv(st) && |st.version| == NUM_LEVELS && MayFlush(st, file, 0) && Present(st.version, tables)
    ensures var r := FlushNext(st, file, 0);
            && r.mem == st.mem && r.imm.None? && r.snapshots == st.snapshots && r.job == st.job && r.floor == st.floor
            && r.history == st.history && r.lastSequence == st.lastSequence
            && Present(r.version, OneWrittenFile(tables, file))
  {
    hide Recorded, Faithful, SnapshotsOk, JobOk, MayFlush, Present;
    PresentAfterFlush(st, tables, file);
  }

  // ----- what a replay depends on -----

  /** The parts of a state that a replay looks at. */
  ghost predicate SameTables(a: State, b: State) {
    a.mem == b.mem && a.imm == b.imm && a.version == b.version && a.used == b.used
  }

  lemma {:induction false} WriteLooksAtMemtable(a: State, b: State, ops: seq<Op>)
    requires SameTables(a, b) && a.lastSequence == b.lastSequence
    ensures SameTables(WriteBatch(a, ops), WriteBatch(b, ops))
            && WriteBatch(a, ops).lastSequence == WriteBatch(b, ops).lastSequence
  {
    if ops != [] { WriteLooksAtMemtable(a, b, ops[..|ops|-1]); }
  }

  lemma {:induction false} FillLooksAtTables(a: State, b: State, bs: seq<Batch>)
    requires SameTables(a, b)
    ensures SameTables(Filled(a, bs), Filled(b, bs))
  {
    hide WriteBatch;
    if bs != [] {
      var r := bs[|bs|-1];
      FillLooksAtTables(a, b, bs[..|bs|-1]);
      var last := if r.first == 0 then 0 else r.first - 1;
      WriteLooksAtMemtable(Filled(a, bs[..|bs|-1]).(lastSequence := last),
        Filled(b, bs[..|bs|-1]).(lastSequence := last), r.ops);
    }
  }

  /** What is only there to say what a state means has no influence on a replay. */
  lemma {:induction false} ReplayLooksAtTables(a: State, b: State, chunks: seq<seq<Batch>>,
                                               files: seq<Option<FileMeta>>)
    requires SameTables(a, b)
    ensures MayReplay(a, chunks, files) == MayReplay(b, chunks, files)
    ensures MayReplay(a, chunks, files) ==> SameTables(Replayed(a, chunks, files), Replayed(b, chunks, files))
    decreases |chunks|
  {
    hide Filled, Edited, ValidFile, Placeable, FreshNumber;
    if chunks != [] && |files| == |chunks| && |a.version| == NUM_LEVELS {
      FillLooksAtTables(a, b, chunks[0]);
      var x, y := Filled(a, chunks[0]), Filled(b, chunks[0]);
      var p, q := x.(mem := [], imm := Some(x.mem)), y.(mem := [], imm := Some(y.mem));
      if |p.version| == NUM_LEVELS && MayFlush(p, files[0], 0) {
        ReplayLooksAtTables(FlushNext(p, files[0], 0), FlushNext(q, files[0], 0), chunks[1..], files[1..]);
      }
    }
  }

  // ----- the one edit that recovery logs -----

  function Adds(files: seq<Option<FileMeta>>): seq<(nat, FileMeta)> {
    if files == [] then [] else (if files[0].Some? then [(0, files[0].value)] else []) + Adds(files[1..])
  }

  /** All tables that a replay wrote, added to level 0 at once. */
  function RecoveryEdit(files: seq<Option<FileMeta>>): FileEdit { FileEdit({}, Adds(files)) }

  /** What a replay has added: the tables `added` under numbers that were never used. */
  ghost predicate Enlarged(st: State, r: State, added: seq<(nat, FileMeta)>) {
    && |r.version| == |st.version| == NUM_LEVELS && SortedVersion(r.version) && NumbersUsed(r)
    && NewTables(FileEdit({}, added), st.used) && r.used == st.used + AddedNumbers(FileEdit({}, added))
    && (forall i :: 0 <= i < |added| ==> added[i].0 == 0)
    && forall l, g :: 0 <= l < NUM_LEVELS ==> (g in r.version[l] <==> g in st.version[l] || AddedAt(added, l, g))
  }

  lemma {:induction false} ReplayGrows(st: State, chunks: seq<seq<Batch>>, files: seq<Option<FileMeta>>)
    requires MayReplay(st, chunks, files) && |st.version| == NUM_LEVELS && SortedVersion(st.version) && NumbersUsed(st)
    ensures Enlarged(st, Replayed(st, chunks, files), Adds(files))
    decreases |chunks|
  {
    hide Filled, Edited, SortedVersion, NewTables, AddedNumbers, ValidFile, FreshNumber, Placeable, Enlarged;
    if chunks == [] {
      NothingGrown(st);
    } else {
      FillLooksAtTables(st, st, chunks[0]);
      FilledTables(st, chunks[0]);
      var full := Filled(st, chunks[0]);
      var frozen := full.(mem := [], imm := Some(full.mem));
      var next := FlushNext(frozen, files[0], 0);
      OneGrown(frozen, files[0]);
      GrownTables(frozen, next, if files[0].Some? then [(0, files[0].value)] else []);
      ReplayGrows(next, chunks[1..], files[1..]);
      GrownTwice(st, next, Replayed(next, chunks[1..], files[1..]), if files[0].Some? then [(0, files[0].value)]
        else [], Adds(files[1..]));
    }
  }

  lemma {:induction false} FilledTables(st: State, bs: seq<Batch>)
    ensures Filled(st, bs).version == st.version && Filled(st, bs).used == st.used
  {
    hide WriteBatch;
    if bs != [] {
      FilledTables(st, bs[..|bs|-1]);
      var b := bs[|bs|-1];
      WriteKeepsTables(Filled(st, bs[..|bs|-1]).(lastSequence := if b.first == 0 then 0 else b.first - 1), b.ops);
    }
  }

  lemma {:induction false} WriteKeepsTables(st: State, ops: seq<Op>)
    ensures WriteBatch(st, ops).version == st.version && WriteBatch(st, ops).used == st.used
  {
    if ops != [] { WriteKeepsTables(st, ops[..|ops|-1]); }
  }

  lemma NothingGrown(st: State)
    requires |st.version| == NUM_LEVELS && SortedVersion(st.version) && NumbersUsed(st)
    ensures Enlarged(st, st, [])
  {
    assert AddedNumbers(FileEdit({}, [])) == {};
  }

  lemma OneGrown(st: State, file: Option<FileMeta>)
    requires |st.version| == NUM_LEVELS && SortedVersion(st.version) && NumbersUsed(st) && MayFlush(st, file, 0)
    ensures Enlarged(st, FlushNext(st, file, 0), if file.Some? then [(0, file.value)] else [])
  {
    hide ValidFile, Placeable, SortedVersion, FreshNumber;
    if file.Some? {
      FlushMembers(st.version, file.value, 0);
      assert [(0, file.value)][0] == (0, file.value);
      assert AddedNumbers(FileEdit({}, [(0, file.value)])) == {file.value.number};
    } else {
      NothingGrown(st);
    }
  }

  lemma GrownTables(st: State, r: State, added: seq<(nat, FileMeta)>)
    requires Enlarged(st, r, added)
    ensures |r.version| == NUM_LEVELS && SortedVersion(r.version) && NumbersUsed(r)
  {}

  lemma GrownTwice(st: State, mid: State, r: State, a: seq<(nat, FileMeta)>, b: seq<(nat, FileMeta)>)
    requires Enlarged(mid, r, b)
    requires exists s: State :: s.version == st.version && s.used == st.used && Enlarged(s, mid, a)
    ensures Enlarged(st, r, a + b)
  {
    hide SortedVersion;
    var s: State :| s.version == st.version && s.used == st.used && Enlarged(s, mid, a);
    NumbersConcat(a, b);
    forall i | 0 <= i < |a| ensures a[i].1.number in AddedNumbers(FileEdit({}, a)) {}
    forall i, j | 0 <= i < j < |a + b| ensures (a + b)[i].1.number != (a + b)[j].1.number {}
    assert forall l, g :: AddedAt(a + b, l, g) <==> AddedAt(a, l, g) || AddedAt(b, l, g);
  }

  lemma NumbersConcat(a: seq<(nat, FileMeta)>, b: seq<(nat, FileMeta)>)
    ensures AddedNumbers(FileEdit({}, a + b)) == AddedNumbers(FileEdit({}, a)) + AddedNumbers(FileEdit({}, b))
  {
    forall n | n in AddedNumbers(FileEdit({}, a)) + AddedNumbers(FileEdit({}, b))
      ensures n in AddedNumbers(FileEdit({}, a + b)) {
      if i :| 0 <= i < |a| && a[i].1.number == n {
        assert (a + b)[i].1.number == n;
      } else {
        var i :| 0 <= i < |b| && b[i].1.number == n;
        assert (a + b)[|a| + i].1.number == n;
      }
    }
  }

  /** Adding the tables one by one or all at once gives the same version. */
  lemma AddsTogether(st: State, chunks: seq<seq<Batch>>, files: seq<Option<FileMeta>>)
    requires MayReplay(st, chunks, files) && |st.version| == NUM_LEVELS && SortedVersion(st.version) && NumbersUsed(st)
    ensures var r := Replayed(st, chunks, files);
            && r.version == Edited(st.version, RecoveryEdit(files))
               && r.used == st.used + AddedNumbers(RecoveryEdit(files))
            && NewTables(RecoveryEdit(files), st.used)
            && forall l, g :: 0 <= l < |r.version| && g in r.version[l] ==>
               g in st.version[l] || AddedAt(Adds(files), l, g)
  {
    hide MayReplay, Edited, SavedAt;
    var r, e := Replayed(st, chunks, files), RecoveryEdit(files);
    ReplayGrows(st, chunks, files);
    EditedSize(st.version, e);
    forall l | 0 <= l < NUM_LEVELS ensures Edited(st.version, e)[l] == r.version[l] {
      EditedMembers(st.version, e, l);
      SortedFilesUnique(Edited(st.version, e)[l], r.version[l]);
    }
  }

  // ----- there is always a way to replay -----

  lemma {:induction false} NumberAbove(s: set<nat>) returns (n: nat)
    ensures forall x :: x in s ==> x < n
    decreases s
  {
    if s == {} {
      n := 0;
    } else {
      var x :| x in s;
      n := NumberAbove(s - {x});
      if n <= x { n := x + 1; }
      forall y | y in s ensures y < n { if y != x { assert y in s - {x}; } }
    }
  }

  /** All records in one memtable. */
  lemma SomeReplay(st: State, bs: seq<Batch>) returns (files: seq<Option<FileMeta>>)
    requires AtRest(st) && Follow(bs, st.lastSequence)
    ensures MayReplay(st, [bs], files) && Joined([bs]) == bs
  {
    hide Filled, Follow, Faithful, SnapshotsOk, JobOk;
    FilledOk(st, bs);
    var full := Filled(st, bs);
    var es := full.mem;
    var n := NumberAbove(st.used);
    var frozen := full.(mem := [], imm := Some(es));
    var file: Option<FileMeta> := if es == [] then None else Some(FileMeta(n, 0, es[0].key, es[|es|-1].key, es));
    files := [file];
    if file.Some? { TableOf(full, file.value, n); }
    assert MayFlush(frozen, file, 0);
    assert [bs][1..] == [] && files[1..] == [];
    assert MayReplay(FlushNext(frozen, file, 0), [], []);
  }

  lemma TableOf(st: State, f: FileMeta, n: nat)
    requires Inv(st) && f.entries == st.mem != [] && f.number == n && forall x :: x in st.used ==> x < n
    requires f.smallest == f.entries[0].key && f.largest == f.entries[|f.entries|-1].key
    ensures ValidFile(f) && FreshNumber(st.version, n) && n !in st.used && Placeable(st.version, f, 0)
  {
    hide Faithful, SnapshotsOk, JobOk, ValidVersion, SortedVersion;
    forall e | e in f.entries ensures e.key.sequence <= MAX_SEQUENCE { assert e in Stored(st); }
  }
}
