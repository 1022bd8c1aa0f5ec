/** The database object: each operation takes one step of the engine, and a read answers
    what the plain map of all writes answers. */
module Databases {
  import opened InternalKeys
  import opened Versions
  import opened Inputs
  import opened Picking
  import opened Merging
  import opened Invisibility
  import opened Builders
  import opened Manifests
  import opened Installs
  import opened Engine
  import opened Cursors
  import opened MergingIterators
  import opened Sources
  import opened PlainMaps

  const SLOWDOWN_WRITES_TRIGGER: nat := 8
  const STOP_WRITES_TRIGGER: nat := 12

  /** What a writer does next before it may write. */
  datatype Room = Delay | Enough | WaitForFlush | WaitForCompaction | Switched

  datatype Work = Nothing | Moved(file: FileMeta, level: nat) | Started

  class DBImpl {
    var mem: seq<Entry>
    var imm: Option<seq<Entry>>
    var version: Version
    var lastSequence: nat
    var nextFileNumber: nat
    var snapshots: seq<nat>
    var compactPointer: seq<Option<InternalKey>>
    var job: Option<Job>
    var grandparents: seq<FileMeta>
    ghost var history: seq<Entry>
    ghost var floor: nat
    ghost var used: set<nat>

    ghost function Abstract(): State
      reads this
    {
      State(mem, imm, version, lastSequence, snapshots, job, history, floor, used)
    }

    ghost predicate Valid()
      reads this
    {
      && Inv(Abstract())
      && |compactPointer| == NUM_LEVELS
      && (forall n :: n in used ==> n < nextFileNumber)
      && (job.Some? ==>
          WellFormed(job.value.inputVersion) && Iterable(job.value.level, job.value.in0) && Ordered(job.value.in1))
    }

    constructor ()
      ensures Valid() && Abstract() == EMPTY_DB
    {
      mem, imm, version, lastSequence, nextFileNumber := [], None, NO_FILES, 0, 2;
      snapshots, job, grandparents := [], None, [];
      compactPointer := [None, None, None, None, None, None, None];
      history, floor, used := [], 0, {};
      new;
      InitialInv();
    }

    // ----- writes -----

    /** Applies a batch: consecutive sequence numbers, each operation added to the memtable. The map
        is then the one before with the operations performed on it, and the maps of earlier
        sequence numbers stay. */
    method Write(ops: seq<Op>)
      requires Valid() && lastSequence + |ops| < MAX_SEQUENCE
      modifies `mem, `lastSequence, `history
      ensures Valid() && Abstract() == WriteBatch(old(Abstract()), ops) && lastSequence == old(lastSequence) + |ops|
      ensures MapAt(history, lastSequence) == PerformAll(old(MapAt(history, lastSequence)), ops)
      ensures forall s: nat :: s <= old(lastSequence) ==> MapAt(history, s) == MapAt(old(history), s)
    {
      hide Inv, WriteBatch, InsertEntry, MapAt, PerformAll, Bounded;
      ghost var before := Abstract();
      WriteBatchKeepsInv(before, ops);
      HistoryBounded(before);
      WriteBatchFollows(before, ops);
      NoOps(before, ops);
      var es, sequence := mem, lastSequence;
      ghost var h := history;
      for i := 0 to |ops|
        invariant WriteBatch(before, ops[..i]) == before.(mem := es, lastSequence := sequence, history := h)
      {
        OneMoreOp(before, ops, i);
        sequence := sequence + 1;
        es := InsertEntry(es, Stamped(ops[i], sequence));
        h := h + [Stamped(ops[i], sequence)];
      }
      assert ops[..|ops|] == ops;
      mem, lastSequence, history := es, sequence, h;
    }

    /** One turn of the loop that makes room for a write. */
    method MakeRoomForWrite(allowDelay: bool, force: bool, memoryUsage: nat, writeBufferSize: nat) returns (r: Room)
      requires Valid()
      modifies `mem, `imm
      ensures Valid() && |version| == NUM_LEVELS
      ensures r == Delay <==> allowDelay && |version[0]| >= SLOWDOWN_WRITES_TRIGGER
      ensures r != Delay ==> (r == Enough <==> !force && memoryUsage <= writeBufferSize)
      ensures r != Delay && r != Enough ==> (r == WaitForFlush <==> old(imm).Some?)
      ensures r == WaitForCompaction || r == Switched ==>
              (r == WaitForCompaction <==> |version[0]| >= STOP_WRITES_TRIGGER)
      ensures r == Switched ==> Enabled(old(Abstract()), Rotate) && Abstract() == Next(old(Abstract()), Rotate)
      ensures r != Switched ==> Abstract() == old(Abstract())
    {
      hide Inv;
      VersionSize(Abstract());
      if allowDelay && |version[0]| >= SLOWDOWN_WRITES_TRIGGER {
        r := Delay;
      } else if !force && memoryUsage <= writeBufferSize {
        r := Enough;
      } else if imm.Some? {
        r := WaitForFlush;
      } else if |version[0]| >= STOP_WRITES_TRIGGER {
        r := WaitForCompaction;
      } else {
        StepKeepsInv(Abstract(), Rotate);
        mem, imm := [], Some(mem);
        r := Switched;
      }
    }

    // ----- reads -----

    /** The memtable, then the one being flushed, then the tables; the first hit decides. */
    method Get(u: UserKey, snapshot: Option<nat>) returns (r: Saver)
      requires Valid() && (snapshot.Some? ==> snapshot.value in snapshots)
      ensures Answer(r) == Lookup(MapAt(history, if snapshot.Some? then snapshot.value else lastSequence), u)
    {
      hide Inv, Decides, SetNewer;
      var s := if snapshot.Some? then snapshot.value else lastSequence;
      ghost var st := Abstract();
      LayersOf(st);
      ValidIsSearchable(version, u, s);
      r := MemTableGet(mem, u, s);
      ghost var rest := Elements(Immutable(st)) + EntriesOf(version);
      if r != NotFound {
        HitDecides(Elements(mem), rest, u, s, r);
      } else if imm.Some? {
        r := MemTableGet(imm.value, u, s);
        if r != NotFound {
          HitDecides(Elements(Immutable(st)), EntriesOf(version), u, s, r);
        } else {
          r := Versions.Get(version, u, s);
          MissDecides(Elements(Immutable(st)), EntriesOf(version), u, s, r);
        }
        MissDecides(Elements(mem), rest, u, s, r);
      } else {
        r := Versions.Get(version, u, s);
        assert rest == EntriesOf(version);
        MissDecides(Elements(mem), rest, u, s, r);
      }
      assert Stored(st) == Elements(mem) + rest;
      DecidedIsLookup(st, u, s, r);
    }

    method GetSnapshot() returns (s: nat)
      requires Valid()
      modifies `snapshots
      ensures Valid() && s == lastSequence
      ensures Enabled(old(Abstract()), TakeSnapshot) && Abstract() == Next(old(Abstract()), TakeSnapshot)
    {
      hide Inv;
      VersionSize(Abstract());
      StepKeepsInv(Abstract(), TakeSnapshot);
      s := lastSequence;
      snapshots := snapshots + [s];
    }

    method ReleaseSnapshot(i: nat)
      requires Valid() && i < |snapshots|
      modifies `snapshots
      ensures Valid() && Enabled(old(Abstract()), Step.ReleaseSnapshot(i))
      ensures Abstract() == Next(old(Abstract()), Step.ReleaseSnapshot(i))
    {
      hide Inv;
      VersionSize(Abstract());
      StepKeepsInv(Abstract(), Step.ReleaseSnapshot(i));
      snapshots := snapshots[..i] + snapshots[i+1..];
    }

    // ----- background work -----

    /** Writes the immutable memtable to a table and installs that; an empty one leaves no table.
        The table goes down as far as nothing overlaps it and its grandparents stay light. */
    method CompactMemTable(size: seq<Entry> -> nat, grandparentLimit: nat) returns (file: Option<FileMeta>, level: nat)
      requires Valid() && imm.Some?
      modifies `imm, `version, `nextFileNumber, `used
      ensures Valid() && Enabled(old(Abstract()), Flush(file, level))
              && Abstract() == Next(old(Abstract()), Flush(file, level))
      ensures file.Some? ==>
                && file.value.number == old(nextFileNumber) < nextFileNumber
                   && file.value.size == size(file.value.entries)
                && PlacedAt(old(version), UserRange(file.value.smallest, file.value.largest), level, grandparentLimit)
    {
      hide Inv, ValidVersion, SortedVersion, WellFormed, SetNewer, Sorted, Iterable, Ordered, NoRepeat, MayFlush,
           Edited, FlushEdit, ValidEdit, Clear, ClearDownTo, LightDownTo;
      ghost var before := Abstract();
      VersionSize(before);
      LayersOf(before);
      var es, number := imm.value, nextFileNumber;
      nextFileNumber := nextFileNumber + 1;
      if es == [] {
        NothingToFlush(before);
        StepKeepsInv(before, Flush(None, 0));
        imm := None;
        return None, 0;
      }
      var f := FileMeta(number, size(es), es[0].key, es[|es|-1].key, es);
      level := PickLevelForMemTableOutput(version, UserRange(f.smallest, f.largest), grandparentLimit);
      file := Some(f);
      FlushEnabled(before, f, level, number);
      StepKeepsInv(before, Flush(file, level));
      version := LogAndApply(version, FlushEdit(f, level));
      imm, used := None, used + {number};
    }

    /** Picks a compaction; a single file that nothing overlaps is moved, else a merge begins. */
    method StartCompaction(sizeLevel: Option<nat>, seek: Option<(nat, FileMeta)>, expandedLimit: nat,
                           grandparentLimit: nat)
        returns (work: Work)
      requires Valid() && job.None?
      requires sizeLevel.Some? ==> sizeLevel.value + 1 < NUM_LEVELS == |version| && version[sizeLevel.value] != []
      requires seek.Some? ==> seek.value.0 + 1 < NUM_LEVELS == |version| && seek.value.1 in version[seek.value.0]
      modifies `version, `job, `grandparents, `compactPointer
      ensures Valid() && (work == Nothing <==> sizeLevel.None? && seek.None?)
      ensures work == Nothing ==> Abstract() == old(Abstract())
      ensures work.Moved? ==> Enabled(old(Abstract()), Move(work.file, work.level)) &&
                              Abstract() == Next(old(Abstract()), Move(work.file, work.level))
      ensures work.Moved? ==> IsChosen(old(version), old(compactPointer), sizeLevel, seek, work.level, [work.file])
                              && MovesAlone(old(version), work.level, [work.file], [], grandparentLimit)
                              && compactPointer == old(compactPointer)[work.level := Some(work.file.largest)]
      ensures work == Started ==>
                && job.Some? && job.value.level < |old(compactPointer)| && old(job).None?
                && var j := job.value;
                && IsChosen(old(version), old(compactPointer), sizeLevel, seek, j.level, j.in0)
                && !MovesAlone(old(version), j.level, j.in0, j.in1, grandparentLimit)
                && GrandparentsOf(old(version), j.level, j.Inputs(), grandparents)
                && exists k :: IsLargestKey(j.in0, k) && compactPointer == old(compactPointer)[j.level := Some(k)]
      ensures work == Started ==> job.Some? && Connected(job.value.Inputs()) &&
                                  Enabled(old(Abstract()), Begin(job.value.level, job.value.in0, job.value.in1)) &&
                                  Abstract() == Next(old(Abstract()),
                                    Begin(job.value.level, job.value.in0, job.value.in1))
    {
      hide Inv, Legal, Connected, ValidVersion, SortedVersion, WellFormed, SetNewer, Sorted, Iterable, Ordered,
           NoRepeat, Edited, MoveEdit, ValidEdit, IsChosen, MovesAlone, GrandparentsOf;
      ghost var before := Abstract();
      VersionSize(before);
      LayersOf(before);
      var c := PickCompaction(version, sizeLevel, compactPointer, seek, expandedLimit);
      if c.None? { return Nothing; }
      var level, in0, in1 := c.value.level, c.value.in0, c.value.in1;
      MovesAloneIff(before.version, c.value, grandparentLimit);
      compactPointer := compactPointer[level := Some(c.value.pointer)];
      if |in0| == 1 && in1 == [] && TotalFileSize(c.value.grandparents) <= grandparentLimit {
        assert in0 == [in0[0]];
        OneFilePointer(in0[0], c.value.pointer);
        StepKeepsInv(before, Move(in0[0], level));
        MoveEditValid(before, in0[0], level);
        version := LogAndApply(version, MoveEdit(in0[0], level));
        work := Moved(in0[0], level);
      } else {
        BeginCompaction(c.value);
        work := Started;
      }
    }

    /** A requested compaction never moves a file. */
    method StartManualCompaction(level: nat, range: Range, fileLimit: nat, expandedLimit: nat) returns (done: bool)
      requires Valid() && job.None? && level + 1 < NUM_LEVELS == |version|
      modifies `job, `grandparents, `compactPointer
      ensures Valid() && (done <==> forall f :: f in version[level] ==> !Overlaps(f, range))
      ensures done ==> Abstract() == old(Abstract())
      ensures !done ==>
                && job.Some? && level < |old(compactPointer)|
                && GrandparentsOf(old(version), level, job.value.Inputs(), grandparents)
                && exists k :: IsLargestKey(job.value.in0, k) && compactPointer == old(compactPointer)[level := Some(k)]
      ensures !done ==> job.Some? && job.value.level == level &&
                        Enabled(old(Abstract()), Begin(level, job.value.in0, job.value.in1)) &&
                        Abstract() == Next(old(Abstract()), Begin(level, job.value.in0, job.value.in1))
    {
      hide Inv, Legal, ValidVersion, SortedVersion, WellFormed, SetNewer, Sorted, Iterable, Ordered, NoRepeat;
      LayersOf(Abstract());
      var c := CompactRange(version, level, range, fileLimit, expandedLimit);
      VersionSize(Abstract());
      if c.None? { return true; }
      compactPointer := compactPointer[level := Some(c.value.pointer)];
      BeginCompaction(c.value);
      done := false;
    }

    method BeginCompaction(c: Compaction)
      requires Valid() && job.None? && Legal(version, c.level, c.in0, c.in1) && Iterable(c.level, c.in0)
               && Ordered(c.in1)
      modifies `job, `grandparents
      ensures Valid() && job == Some(Job(c.level, c.in0, c.in1, SmallestSnapshot(old(Abstract())), version))
      ensures (forall s :: s in snapshots ==> job.value.snapshot <= s)
              && if snapshots == [] then job.value.snapshot == lastSequence else job.value.snapshot in snapshots
      ensures grandparents == c.grandparents
      ensures Enabled(old(Abstract()), Begin(c.level, c.in0, c.in1)) &&
              Abstract() == Next(old(Abstract()), Begin(c.level, c.in0, c.in1))
    {
      hide Inv, Legal, ValidVersion, SortedVersion, WellFormed, SetNewer, Sorted, Iterable, Ordered, NoRepeat;
      VersionSize(Abstract());
      LayersOf(Abstract());
      OldestOf(Abstract());
      StepKeepsInv(Abstract(), Begin(c.level, c.in0, c.in1));
      grandparents := c.grandparents;
      var smallest := if snapshots == [] then lastSequence else snapshots[0];
      job := Some(Job(c.level, c.in0, c.in1, smallest, version));
    }

    /** Merges the inputs and installs the outputs, whatever else has come to their level. The
        database stays sound exactly when the outputs fit there: always after a picked
        compaction, and after one that was requested over a gap while nothing has been flushed
        into the gap. */
    method FinishCompaction(maxOutputFileSize: nat, overlapLimit: nat, size: seq<Entry> -> nat)
        returns (input: seq<Entry>, outs: seq<FileMeta>)
      requires Valid() && job.Some? && job.value.level + 1 < |version|
      modifies `version, `job, `nextFileNumber, `floor, `used
      ensures Possible(old(Abstract()), Install(input, outs))
              && Abstract() == Performed(old(Abstract()), Install(input, outs))
      ensures IsCompacted(Contents(old(job.value.Inputs())), Contents(outs), old(job.value.snapshot),
                          old(job.value.inputVersion), old(job.value.level))
      ensures (forall k :: 0 <= k < |outs| ==> outs[k].number == old(nextFileNumber) + k) && Sized(outs, size)
      ensures CutWell(outs, CutKeys(grandparents, overlapLimit, input, |input|), maxOutputFileSize, size)
      ensures Valid() <==> old(Fits(version, job.value.level, job.value.in1, outs))
      ensures old(Connected(job.value.Inputs())) ==> Valid()
      ensures old(LegalLower(version[job.value.level + 1], job.value.in0, job.value.in1)) ==> Valid()
    {
      hide Inv, Connected, LegalLower, ValidVersion, SortedVersion, WellFormed, SetNewer, Sorted, Iterable, Ordered,
           NoRepeat, IsMerged, Merged, Edited, InstallEdit, ValidEdit, Fits, IsCompacted, UniqueVersions,
           CutWell, CutKeys, Sized;
      ghost var before := Abstract();
      var j, first := job.value, nextFileNumber;
      JobFacts(before);
      input, outs := MergeInputs(j, grandparents, overlapLimit, maxOutputFileSize, first, size);
      InputsUnique(before);
      MergedIsCompacted(j.Inputs(), input, outs, j.snapshot, j.inputVersion, j.level);
      InstallPossible(before, input, outs, first);
      InstallEditValid(j, outs);
      InstallKeepsInvIffFits(before, input, outs);
      var edit := InstallCompactionResults(j.level, j.in0, j.in1, outs);
      version := LogAndApply(version, edit);
      nextFileNumber := first + |outs|;
      job := None;
      floor := if floor < j.snapshot then j.snapshot else floor;
      used := used + set o | o in outs :: o.number;
    }
  }

  /** A read after a write gives the last operation on the key, and what it gave before when there
      is none. */
  method ReadAfterWriting(db: DBImpl, ops: seq<Op>, u: UserKey) returns (before: Saver, after: Saver)
    requires db.Valid() && db.lastSequence + |ops| < MAX_SEQUENCE
    modifies db`mem, db`lastSequence, db`history
    ensures db.Valid()
    ensures forall i :: 0 <= i < |ops| && ops[i].user == u && (forall j :: i < j < |ops| ==> ops[j].user != u) ==>
              Answer(after) == if ops[i].kind == TypeValue then Some(ops[i].value) else None
    ensures (forall j :: 0 <= j < |ops| ==> ops[j].user != u) ==> Answer(after) == Answer(before)
  {
    hide DBImpl.Valid, MapAt, PerformAll, Lookup, Answer, WriteBatch;
    before := db.Get(u, None);
    ghost var m := MapAt(db.history, db.lastSequence);
    db.Write(ops);
    after := db.Get(u, None);
    forall i | 0 <= i < |ops| && ops[i].user == u && (forall j :: i < j < |ops| ==> ops[j].user != u)
      ensures Answer(after) == if ops[i].kind == TypeValue then Some(ops[i].value) else None
    {
      LastOperationDecides(m, ops, i);
    }
    if forall j :: 0 <= j < |ops| ==> ops[j].user != u { OtherKeysStay(m, ops, u); }
  }

  lemma HistoryBounded(st: State)
    requires Inv(st)
    ensures Bounded(st)
  {}

  /** Runs the merge loop; the output files get the numbers from `first` on. */
  method MergeInputs(j: Job, grandparents: seq<FileMeta>, overlapLimit: nat, maxOutputFileSize: nat,
                     first: nat, size: seq<Entry> -> nat) returns (input: seq<Entry>, outs: seq<FileMeta>)
    requires WellFormed(j.inputVersion) && j.snapshot < MAX_SEQUENCE && InputsApart(j.level, j.in0, j.in1)
    ensures Merged(j.Inputs(), input, outs, j.snapshot, j.inputVersion, j.level)
    ensures (forall k :: 0 <= k < |outs| ==> outs[k].number == first + k) && Sized(outs, size)
    ensures CutWell(outs, CutKeys(grandparents, overlapLimit, input, |input|), maxOutputFileSize, size)
  {
    hide Merged, WellFormed, Sorted, Kept, Flatten, InputsApart, MergingIterator.Inv, CutWell, CutKeys,
         Progress.Scanned;
    var iter := MakeInputIterator(j.level, j.in0, j.in1);
    iter.Outside();
    input := ReadAll(iter);
    var progress := new Progress(j.level, j.inputVersion, grandparents, overlapLimit);
    var alloc := (k: nat) => first + k;
    outs := DoCompactionWork(progress, input, j.snapshot, maxOutputFileSize, alloc, size);
    WorkIsMerged(j, input, outs, alloc);
  }

  /** Seeks the first entry at or after the lookup key and checks its user key. */
  method MemTableGet(es: seq<Entry>, u: UserKey, s: nat) returns (r: Saver)
    requires Sorted(es)
    ensures Decides(Elements(es), u, s, r)
  {
    var iter := new Cursor(es);
    iter.Seek(SeekKey(u, s));
    FirstAtOrAfter(es, iter.pos, u, s);
    r := NotFound;
    if iter.Valid() && iter.Key().user == u { r := Verdict(es[iter.pos]); }
  }

  /** One edit logged and applied to the current version. */
  method LogAndApply(v: Version, edit: FileEdit) returns (w: Version)
    requires SortedVersion(v) && ValidEdit(edit)
    ensures w == Edited(v, edit)
  {
    var builder := new Builder(v);
    builder.Apply(edit);
    w := builder.SaveTo();
  }

  lemma OneFilePointer(f: FileMeta, k: InternalKey)
    requires IsLargestKey([f], k)
    ensures k == f.largest
  {}

  lemma NoOps(st: State, ops: seq<Op>)
    ensures WriteBatch(st, ops[..0]) == st
  {}

  lemma OneMoreOp(st: State, ops: seq<Op>, i: nat)
    requires i < |ops|
    ensures WriteBatch(st, ops[..i + 1]) == WriteOne(WriteBatch(st, ops[..i]), ops[i])
  {
    assert ops[..i + 1][..i] == ops[..i];
  }

  lemma OldestOf(st: State)
    requires Inv(st)
    ensures forall s :: s in st.snapshots ==> SmallestSnapshot(st) <= s
  {
    OldestSnapshot(st);
  }

  lemma VersionSize(st: State)
    requires Inv(st)
    ensures |st.version| == NUM_LEVELS
  {}

  lemma LayersOf(st: State)
    requires Inv(st)
    ensures ValidVersion(st.version) && SortedVersion(st.version) && WellFormed(st.version) && NoRepeat(st.version[0])
    ensures Sorted(st.mem) && Sorted(Immutable(st))
    ensures SetNewer(Elements(st.mem), Elements(Immutable(st)) + EntriesOf(st.version))
    ensures SetNewer(Elements(Immutable(st)), EntriesOf(st.version))
  {
    assert SortedFiles(st.version[0]);
    forall i, j | 0 <= i < j < |st.version[0]| ensures st.version[0][i] != st.version[0][j] {
      assert BySmallest(st.version[0][i], st.version[0][j]);
    }
  }

  /** A hit in a layer that is newer than the rest needs no further search. */
  lemma HitDecides(A: set<Entry>, B: set<Entry>, u: UserKey, s: nat, r: Saver)
    requires Decides(A, u, s, r) && r != NotFound && SetNewer(A, B)
    ensures Decides(A + B, u, s, r)
  {
    var e :| Newest(A, u, s, e) && r == Verdict(e);
    assert Newest(A + B, u, s, e);
  }

  lemma MissDecides(A: set<Entry>, B: set<Entry>, u: UserKey, s: nat, r: Saver)
    requires Decides(A, u, s, NotFound) && Decides(B, u, s, r)
    ensures Decides(A + B, u, s, r)
  {
    if r != NotFound {
      var e :| Newest(B, u, s, e) && r == Verdict(e);
      assert Newest(A + B, u, s, e);
    }
  }

  lemma DecidedIsLookup(st: State, u: UserKey, s: nat, r: Saver)
    requires Inv(st) && Decides(Stored(st), u, s, r) && (s == st.lastSequence || s in st.snapshots)
    ensures Answer(r) == Lookup(MapAt(st.history, s), u)
  {
    hide Decides, Layered, NumbersUsed, JobOk;
    StoredUnique(st);
    DecidesIsRead(Stored(st), u, s, r);
    assert Read(Stored(st), u, s) == Read(Elements(st.history), u, s);
    ReadIsMapLookup(st.history, u, s);
  }

  lemma FlushEnabled(st: State, f: FileMeta, level: nat, next: nat)
    requires Inv(st) && st.imm.Some? && st.imm.value == f.entries != [] && (forall n :: n in st.used ==> n < next)
             && f.number == next
    requires f.smallest == f.entries[0].key && f.largest == f.entries[|f.entries|-1].key
    requires |st.version| == NUM_LEVELS && level <= MAX_MEM_COMPACT_LEVEL
    requires level > 0 ==> ClearDownTo(st.version, UserRange(f.smallest, f.largest), level)
    ensures Enabled(st, Flush(Some(f), level)) && ValidEdit(FlushEdit(f, level))
  {
    forall e | e in f.entries ensures e.key.sequence <= MAX_SEQUENCE { assert e in Stored(st); }
  }

  lemma NothingToFlush(st: State)
    requires |st.version| == NUM_LEVELS && st.imm == Some([])
    ensures Enabled(st, Flush(None, 0))
  {}

  lemma MoveEditValid(st: State, f: FileMeta, level: nat)
    requires Enabled(st, Move(f, level))
    ensures ValidEdit(MoveEdit(f, level))
  {}

  lemma JobFacts(st: State)
    requires Inv(st) && st.job.Some?
    requires Iterable(st.job.value.level, st.job.value.in0) && Ordered(st.job.value.in1)
    ensures st.job.value.snapshot < MAX_SEQUENCE && st.job.value.level + 1 < NUM_LEVELS == |st.version|
            && SortedVersion(st.version)
    ensures InputsApart(st.job.value.level, st.job.value.in0, st.job.value.in1)
  {
    hide Faithful, SnapshotsOk, NumbersUsed, ValidVersion, SortedVersion, Iterable, Ordered, InputsApart, Connected,
         LegalLower, BaseStays;
    StoredUnique(st);
    VersionInputs(st.version, st.job.value.level, st.job.value.in0, st.job.value.in1);
  }

  lemma InputsUnique(st: State)
    requires Inv(st) && st.job.Some?
    ensures UniqueVersions(Contents(st.job.value.Inputs()))
  {
    hide Faithful, SnapshotsOk, NumbersUsed, ValidVersion, SortedVersion, Connected, LegalLower, BaseStays,
         UniqueVersions;
    StoredUnique(st);
    var j := st.job.value;
    forall e | e in Contents(j.Inputs()) ensures e in EntriesOf(st.version) {
      var f :| f in j.Inputs() && e in f.entries;
      if f in j.in0 { assert e in Contents(st.version[j.level]); }
        else { assert e in Contents(st.version[j.level + 1]); }
    }
    SmallerUnique(EntriesOf(st.version), Contents(j.Inputs()));
  }

  lemma SmallerUnique(E: set<Entry>, F: set<Entry>)
    requires UniqueVersions(E) && F <= E
    ensures UniqueVersions(F)
  {}

  lemma WorkIsMerged(j: Job, input: seq<Entry>, outs: seq<FileMeta>, alloc: nat -> nat)
    requires Sorted(input) && Elements(input) == Contents(j.Inputs()) && Numbered(outs, alloc)
    requires Flatten(outs) == Kept(input, |input|, j.snapshot, j.inputVersion, j.level)
    ensures Merged(j.Inputs(), input, outs, j.snapshot, j.inputVersion, j.level)
    ensures forall k :: 0 <= k < |outs| ==> outs[k].number == alloc(k)
  {}

  lemma InstallEditValid(j: Job, outs: seq<FileMeta>)
    requires j.level + 1 < NUM_LEVELS
    ensures ValidEdit(InstallEdit(j.level, j.in0, j.in1, outs))
  {
    AtMembers(j.level + 1, outs);
  }

  /** The numbers from `next` on are new. */
  lemma FreshOutputs(st: State, outs: seq<FileMeta>, next: nat)
    requires NumbersUsed(st) && (forall n :: n in st.used ==> n < next)
    requires forall k :: 0 <= k < |outs| ==> outs[k].number == next + k
    ensures NewNumbers(st.version, outs) && forall o :: o in outs ==> o.number !in st.used && o.number < next + |outs|
  {}

  lemma InstallPossible(st: State, input: seq<Entry>, outs: seq<FileMeta>, next: nat)
    requires Inv(st) && st.job.Some? && |st.version| == NUM_LEVELS && (forall n :: n in st.used ==> n < next)
    requires st.job.value.level + 1 < NUM_LEVELS
             && Merged(st.job.value.Inputs(), input, outs, st.job.value.snapshot, st.job.value.inputVersion,
                st.job.value.level)
    requires forall k :: 0 <= k < |outs| ==> outs[k].number == next + k
    ensures Possible(st, Install(input, outs)) && forall o :: o in outs ==> o.number < next + |outs|
    ensures var j := st.job.value;
            Connected(j.Inputs()) || LegalLower(st.version[j.level + 1], j.in0, j.in1) ==>
              Fits(st.version, j.level, j.in1, outs)
  {
    hide Merged, Layered, Recorded, Faithful, SnapshotsOk, NumbersUsed, JobOk, LegalLower, Connected, NewNumbers, Fits;
    var j := st.job.value;
    FreshOutputs(st, outs, next);
    if Connected(j.Inputs()) {
      ConnectedJobFits(st, input, outs);
    } else if LegalLower(st.version[j.level + 1], j.in0, j.in1) {
      LegalJobFits(st, input, outs);
    }
  }

  lemma LegalJobFits(st: State, input: seq<Entry>, outs: seq<FileMeta>)
    requires Inv(st) && st.job.Some? && st.job.value.level + 1 < NUM_LEVELS == |st.version|
    requires var j := st.job.value; LegalLower(st.version[j.level + 1], j.in0, j.in1)
    requires var j := st.job.value; Merged(j.Inputs(), input, outs, j.snapshot, j.inputVersion, j.level)
    ensures var j := st.job.value; Fits(st.version, j.level, j.in1, outs)
  {
    hide Merged, Recorded, Faithful, LegalLower, Connected, BaseStays;
    var j := st.job.value;
    InputsValid(st.version, j.level, j.in0, j.in1);
    MergedFiles(j.Inputs(), input, outs, j.snapshot, j.inputVersion, j.level);
    LegalFits(st.version[j.level + 1], j.in0, j.in1, outs);
  }
}
