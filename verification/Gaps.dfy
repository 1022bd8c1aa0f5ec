/** Why a merge whose inputs leave a gap needs a side condition: a run in which the code
    installs outputs that do not fit. */
module Gaps {
  import opened InternalKeys
  import opened Versions
  import opened Inputs
  import opened Picking
  import opened Merging
  import opened Builders
  import opened Manifests
  import opened Installs
  import opened Engine

  function OneEntry(u: UserKey, n: nat): Entry {
    Entry(InternalKey(u, n, TypeValue), [])
  }

  /** The table of write number `n`, which has file number `n` too. */
  function OneEntryFile(u: UserKey, n: nat): FileMeta {
    var e := OneEntry(u, n);
    FileMeta(n, 1, e.key, e.key, [e])
  }

  const OLD_LEFT := OneEntryFile(1.0, 1)
  const OLD_RIGHT := OneEntryFile(9.0, 2)
  const LEFT := OneEntryFile(1.0, 3)
  const RIGHT := OneEntryFile(9.0, 4)
  const FLUSHED := OneEntryFile(5.0, 5)
  const INPUT := [OneEntry(1.0, 3), OneEntry(1.0, 1), OneEntry(9.0, 4), OneEntry(9.0, 2)]
  const MERGED := FileMeta(6, 2, LEFT.smallest, RIGHT.largest, LEFT.entries + RIGHT.entries)

  // ----- runs of single writes -----

  ghost predicate Reached(steps: seq<Step>, st: State) {
    IsRun(EMPTY_DB, steps) && Final(EMPTY_DB, steps) == st
  }

  lemma {:induction false} OneMoreStep(start: State, steps: seq<Step>, step: Step)
    requires IsRun(start, steps) && Enabled(Final(start, steps), step)
    ensures IsRun(start, steps + [step]) && Final(start, steps + [step]) == Next(Final(start, steps), step)
    decreases |steps|
  {
    hide Enabled, Next;
    var more := steps + [step];
    if steps == [] {
      assert more[1..] == [];
    } else {
      assert more[0] == steps[0] && more[1..] == steps[1..] + [step];
      OneMoreStep(Next(start, steps[0]), steps[1..], step);
    }
  }

  lemma ReachedStart()
    ensures Reached([], EMPTY_DB)
  {}

  lemma ReachedIsRun(steps: seq<Step>, st: State)
    requires Reached(steps, st)
    ensures IsRun(EMPTY_DB, steps) && Final(EMPTY_DB, steps) == st
  {}

  lemma ReachedNext(steps: seq<Step>, st: State, step: Step)
    requires Reached(steps, st) && Enabled(st, step)
    ensures Reached(steps + [step], Next(st, step))
  {
    OneMoreStep(EMPTY_DB, steps, step);
  }

  ghost predicate Holds(v: Version, placed: set<(nat, FileMeta)>) {
    |v| == NUM_LEVELS && forall l: nat, g :: l < NUM_LEVELS ==> (g in v[l] <==> (l, g) in placed)
  }

  /** Every write so far is in a table. */
  ghost predicate Settled(st: State, placed: set<(nat, FileMeta)>) {
    && Inv(st) && Holds(st.version, placed)
    && st.mem == [] && st.imm.None? && st.snapshots == []
    && forall n :: n in st.used ==> n <= st.lastSequence
  }

  /** The level that the code picks for a table of one byte. */
  ghost predicate Picked(placed: set<(nat, FileMeta)>, u: UserKey, p: nat) {
    && p <= MAX_MEM_COMPACT_LEVEL
    && (forall l, g :: (l, g) in placed && l <= p ==> !InUserRange(g, u))
    && (p < MAX_MEM_COMPACT_LEVEL ==> exists g :: (p + 1, g) in placed && InUserRange(g, u))
  }

  /** One write, then a new memtable, then the old one goes to a table. */
  lemma WriteAndFlush(steps: seq<Step>, st: State, placed: set<(nat, FileMeta)>, u: UserKey, p: nat)
      returns (steps': seq<Step>, st': State)
    requires Reached(steps, st) && Settled(st, placed) && Picked(placed, u, p) && st.lastSequence < 10
    ensures var f := OneEntryFile(u, st.lastSequence + 1);
            Reached(steps', st') && Settled(st', placed + {(p, f)})
    ensures st'.lastSequence == st.lastSequence + 1 && st'.job == st.job
    ensures st'.history == st.history + [OneEntry(u, st'.lastSequence)]
  {
    hide Inv, Enabled, Next, Holds, Picked, Reached;
    var n := st.lastSequence + 1;
    var write, flush := Write([Op(u, TypeValue, [])]), Flush(Some(OneEntryFile(u, n)), p);
    var written := WriteOnly(st, u);
    ReachedNext(steps, st, write);
    StepKeepsInv(st, write);
    var rotated := written.(mem := [], imm := Some(written.mem));
    RotateOnly(written);
    ReachedNext(steps + [write], written, Rotate);
    StepKeepsInv(written, Rotate);
    FlushIt(rotated, placed, u, p);
    ReachedNext(steps + [write] + [Rotate], rotated, flush);
    StepKeepsInv(rotated, flush);
    steps', st' := steps + [write] + [Rotate] + [flush], Next(rotated, flush);
  }

  lemma WriteOnly(st: State, u: UserKey) returns (written: State)
    requires Inv(st) && st.mem == [] && st.lastSequence < 10
    ensures var write := Write([Op(u, TypeValue, [])]); Enabled(st, write) && written == Next(st, write)
    ensures var n := st.lastSequence + 1;
            |st.version| == NUM_LEVELS
              && written == st.(mem := [OneEntry(u, n)], lastSequence := n, history := st.history + [OneEntry(u, n)])
  {
    hide Recorded, Faithful, SnapshotsOk, NumbersUsed, JobOk;
    var ops := [Op(u, TypeValue, [])];
    assert ops[..0] == [] && WriteBatch(st, ops[..0]) == st;
    written := Next(st, Write(ops));
    assert written == WriteOne(st, ops[0]);
  }

  lemma RotateOnly(st: State)
    requires st.imm.None? && |st.version| == NUM_LEVELS
    ensures Enabled(st, Rotate) && Next(st, Rotate) == st.(mem := [], imm := Some(st.mem))
  {}

  lemma FlushIt(st: State, placed: set<(nat, FileMeta)>, u: UserKey, p: nat)
    requires Inv(st) && Holds(st.version, placed) && Picked(placed, u, p) && st.lastSequence <= 10
    requires st.imm == Some([OneEntry(u, st.lastSequence)])
    requires forall n :: n in st.used ==> n < st.lastSequence
    ensures var f := OneEntryFile(u, st.lastSequence);
            && Enabled(st, Flush(Some(f), p))
            && var st' := Next(st, Flush(Some(f), p));
            && st' == st.(imm := None, version := st'.version, used := st.used + {f.number})
            && Holds(st'.version, placed + {(p, f)})
  {
    hide Recorded, Faithful, SnapshotsOk, JobOk, ValidVersion, SortedVersion, Newer, NewerThanVersion;
    var f := OneEntryFile(u, st.lastSequence);
    assert Placeable(st.version, f, p) by { hide FreshNumber; }
    assert FreshNumber(st.version, f.number);
    FlushMembers(st.version, f, p);
  }

  // ----- the merge -----

  const UPPER := [LEFT, RIGHT]
  const LOWER := [OLD_LEFT, OLD_RIGHT]
  const STORED: set<(nat, FileMeta)> := {(2, OLD_LEFT), (2, OLD_RIGHT), (1, LEFT), (1, RIGHT)}

  lemma LevelsPicked()
    ensures Picked({}, 1.0, 2) && Picked({(2, OLD_LEFT)}, 9.0, 2)
    ensures Picked({(2, OLD_LEFT), (2, OLD_RIGHT)}, 1.0, 1)
            && Picked({(2, OLD_LEFT), (2, OLD_RIGHT), (1, LEFT)}, 9.0, 1)
    ensures Picked(STORED, 5.0, 2)
  {
    assert (1 + 1, OLD_LEFT) in {(2, OLD_LEFT), (2, OLD_RIGHT)} && InUserRange(OLD_LEFT, 1.0);
    assert (1 + 1, OLD_RIGHT) in {(2, OLD_LEFT), (2, OLD_RIGHT), (1, LEFT)} && InUserRange(OLD_RIGHT, 9.0);
  }

  /** Two writes of each of two keys: the old ones end on level 2, the new ones on level 1. */
  lemma TwoLevelsOfTwo() returns (steps: seq<Step>, st: State)
    ensures Reached(steps, st) && Settled(st, STORED) && st.lastSequence == 4 && st.job.None?
  {
    hide Inv, Enabled, Next, Reached, Picked;
    LevelsPicked();
    InitialInv();
    steps, st := [], EMPTY_DB;
    ReachedStart();
    steps, st := WriteAndFlush(steps, st, {}, 1.0, 2);
    steps, st := WriteAndFlush(steps, st, {(2, OLD_LEFT)}, 9.0, 2);
    steps, st := WriteAndFlush(steps, st, {(2, OLD_LEFT), (2, OLD_RIGHT)}, 1.0, 1);
    steps, st := WriteAndFlush(steps, st, {(2, OLD_LEFT), (2, OLD_RIGHT), (1, LEFT)}, 9.0, 1);
  }

  lemma MergeIsLegal(v: Version)
    requires Holds(v, STORED)
    ensures Legal(v, 1, UPPER, LOWER)
  {
    assert LEFT in UPPER && RIGHT in UPPER && OLD_LEFT in LOWER && OLD_RIGHT in LOWER;
  }

  lemma OneOutput(v: Version)
    ensures Merged(UPPER + LOWER, INPUT, [MERGED], 4, v, 1)
  {
    hide Kept, Contents, Elements;
    InputContents();
    NewestKept(v);
    FlattenSnoc([], MERGED);
    assert [] + [MERGED] == [MERGED];
  }

  lemma InputContents()
    ensures Contents(UPPER + LOWER) == Elements(INPUT)
  {
    assert UPPER + LOWER == [LEFT, RIGHT, OLD_LEFT, OLD_RIGHT];
  }

  lemma NewestKept(v: Version)
    ensures Kept(INPUT, 4, 4, v, 1) == [INPUT[0], INPUT[2]]
  {
    assert Kept(INPUT, 0, 4, v, 1) == [];
    assert Kept(INPUT, 1, 4, v, 1) == [INPUT[0]];
    assert Kept(INPUT, 2, 4, v, 1) == [INPUT[0]];
    assert Kept(INPUT, 3, 4, v, 1) == [INPUT[0], INPUT[2]];
  }

  lemma OutputIsNew(st: State, v: Version)
    requires Settled(st, STORED + {(2, FLUSHED)}) && st.lastSequence == 5 && st.job == Some(Job(1, UPPER, LOWER, 4, v))
    ensures Possible(st, Install(INPUT, [MERGED])) && !Fits(st.version, 1, LOWER, [MERGED])
  {
    hide Layered, Recorded, Faithful, SnapshotsOk, Merged, JobOk;
    OneOutput(v);
    assert st.job.value.Inputs() == UPPER + LOWER;
    assert MERGED in [MERGED] && FLUSHED in st.version[2] && FLUSHED !in LOWER && !Disjoint(FLUSHED, MERGED);
  }

  /** The installation is possible and leaves two files on level 2 that overlap, and nothing on
      any other level. */
  lemma OutputSpansFlushed(st: State, v: Version)
    requires Settled(st, STORED + {(2, FLUSHED)}) && st.lastSequence == 5 && st.job == Some(Job(1, UPPER, LOWER, 4, v))
    ensures Possible(st, Install(INPUT, [MERGED])) && !Fits(st.version, 1, LOWER, [MERGED])
    ensures OnlyOverlap(Performed(st, Install(INPUT, [MERGED])).version)
  {
    hide Recorded, Faithful, SnapshotsOk, NumbersUsed, ValidVersion, SortedVersion, IsMerged, Newer, NewerThanVersion,
         Mergeable;
    hide BaseStays, Connected, LegalLower, OutputFiles, Edited, InstallEdit, Fits;
    OutputIsNew(st, v);
    assert UPPER + LOWER == st.job.value.Inputs();
    JobOutputs(st, INPUT, [MERGED]);
    InstallMembers(st.version, 1, UPPER, LOWER, [MERGED]);
    OnlyTwo(Edited(st.version, InstallEdit(1, UPPER, LOWER, [MERGED])));
  }

  ghost predicate OnlyOverlap(w: Version) {
    |w| == NUM_LEVELS && forall l: nat :: l < NUM_LEVELS ==> w[l] == if l == 2 then [MERGED, FLUSHED] else []
  }

  lemma OnlyTwo(w: Version)
    requires SortedVersion(w) && forall l: nat, g :: l < NUM_LEVELS ==>
             (g in w[l] <==> l == 2 && (g == MERGED || g == FLUSHED))
    ensures OnlyOverlap(w)
  {
    assert SortedFiles(w[2]) && BySmallest(MERGED, FLUSHED) && !BySmallest(FLUSHED, MERGED);
    TwoSorted(w[2], MERGED, FLUSHED);
    forall l: nat | l < NUM_LEVELS && l != 2 ensures w[l] == [] {
      EmptyOrMember(w[l]);
    }
  }

  lemma EmptyOrMember(fs: seq<FileMeta>)
    ensures fs == [] || fs[0] in fs
  {}

  lemma TwoSorted(fs: seq<FileMeta>, a: FileMeta, b: FileMeta)
    requires SortedFiles(fs) && BySmallest(a, b) && forall g :: g in fs <==> g == a || g == b
    ensures fs == [a, b]
  {
    assert a in fs && b in fs;
    var i :| 0 <= i < |fs| && fs[i] == a;
    var k :| 0 <= k < |fs| && fs[k] == b;
    forall m | 0 <= m < |fs| ensures (fs[m] == a && m == i) || (fs[m] == b && m == k) {
      assert fs[m] in fs;
    }
    assert i < k && fs[0] in fs && fs[|fs| - 1] in fs && fs[k - 1] in fs;
  }

  /** A run of the engine, every table placed where the code places it: a merge of two level-1
      files with a gap between them begins; a memtable whose one key lies in the gap is flushed
      past it to level 2; the one output of the merge spans that key, and nothing in the code
      stops its installation. Level 2 is then no longer disjoint, nothing is stored anywhere else,
      and the map of all writes has the flushed key, which the search below does not find. */
  lemma FlushIntoGapBreaksMerge() returns (steps: seq<Step>, st: State, v: Version)
    ensures IsRun(EMPTY_DB, steps) && Final(EMPTY_DB, steps) == st && st.lastSequence == 5
    ensures Holds(v, STORED) && Legal(v, 1, UPPER, LOWER) && st.job == Some(Job(1, UPPER, LOWER, 4, v))
    ensures Possible(st, Install(INPUT, [MERGED])) && !Fits(st.version, 1, LOWER, [MERGED])
    ensures var st' := Performed(st, Install(INPUT, [MERGED]));
            && OnlyOverlap(st'.version) && !Ordered(st'.version[2]) && !ValidVersion(st'.version)
            && st'.mem == [] && st'.imm.None? && Lookup(MapAt(st'.history, 5), 5.0) == Some([])
  {
    hide Inv, Enabled, Next, Reached, Legal, Possible, Fits, Picked, MapAt;
    LevelsPicked();
    steps, st := TwoLevelsOfTwo();
    v := st.version;
    MergeIsLegal(v);
    var begin := Begin(1, UPPER, LOWER);
    var begun := BeginOnly(st, UPPER, LOWER);
    ReachedNext(steps, st, begin);
    StepKeepsInv(st, begin);
    steps, st := WriteAndFlush(steps + [begin], begun, STORED, 5.0, 2);
    OutputSpansFlushed(st, v);
    LookupAfterWrite(begun.history, OneEntry(5.0, 5), 5.0, 5);
    var w: Version := Performed(st, Install(INPUT, [MERGED])).version;
    assert w[2] == [MERGED, FLUSHED] && !Less(w[2][0].largest, w[2][1].smallest);
    ReachedIsRun(steps, st);
  }

  /** That file of level 2 is the only one that a lookup of the flushed key looks into. */
  method FlushedKeyIsLost(w: Version) returns (r: Saver)
    requires OnlyOverlap(w)
    ensures r == NotFound
  {
    CanBeSearched(w);
    r := Versions.Get(w, 5.0, 5);
    if r != NotFound {
      ghost var level: nat :| level < |w| && SeenInProbed(w[level], level, 5.0, 5);
      OnlyMergedProbed(w, level);
    }
  }

  lemma CanBeSearched(w: Version)
    requires OnlyOverlap(w)
    ensures Searchable(w, 5.0, 5)
  {
    assert MERGED.entries == [OneEntry(1.0, 3), OneEntry(9.0, 4)];
  }

  lemma OnlyMergedProbed(w: Version, level: nat)
    requires OnlyOverlap(w) && level < |w|
    ensures !SeenInProbed(w[level], level, 5.0, 5)
  {
    forall f | IsProbed(w[level], level, f, 5.0, 5) ensures Unseen(Elements(f.entries), 5.0, 5) {
      OnlyMergedFirst(w[level], level, f);
    }
  }

  lemma OnlyMergedFirst(files: seq<FileMeta>, level: nat, f: FileMeta)
    requires files == (if level == 2 then [MERGED, FLUSHED] else []) && IsProbed(files, level, f, 5.0, 5)
    ensures Unseen(Elements(f.entries), 5.0, 5)
  {
    assert MERGED.entries == [OneEntry(1.0, 3), OneEntry(9.0, 4)];
    if level == 2 {
      var p: nat :| FirstAtOrPast(files, SeekKey(5.0, 5), p) && p < |files| && files[p] == f;
      assert !Less(files[0].largest, SeekKey(5.0, 5));
      assert f == MERGED;
    }
  }

  lemma BeginOnly(st: State, in0: seq<FileMeta>, in1: seq<FileMeta>) returns (begun: State)
    requires st.job.None? && st.snapshots == [] && |st.version| == NUM_LEVELS && Legal(st.version, 1, in0, in1)
    ensures Enabled(st, Begin(1, in0, in1)) && begun == Next(st, Begin(1, in0, in1))
    ensures begun == st.(job := Some(Job(1, in0, in1, st.lastSequence, st.version)))
  {
    begun := Next(st, Begin(1, in0, in1));
  }

  // ----- the request -----

  lemma TwoOrdered(fs: seq<FileMeta>, a: FileMeta, b: FileMeta)
    requires Ordered(fs) && Less(a.largest, b.smallest) && a.smallest == a.largest && b.smallest == b.largest
    requires forall g :: g in fs <==> g == a || g == b
    ensures fs == [a, b]
  {
    assert a in fs && b in fs;
    var i :| 0 <= i < |fs| && fs[i] == a;
    var k :| 0 <= k < |fs| && fs[k] == b;
    forall m | 0 <= m < |fs| ensures (fs[m] == a && m == i) || (fs[m] == b && m == k) {
      assert fs[m] in fs;
    }
    assert i < k && fs[0] in fs && fs[|fs| - 1] in fs && fs[k - 1] in fs;
  }

  lemma BothOfLevelOne(v: Version, range: Range, fileLimit: nat, n: nat)
    requires |v| == NUM_LEVELS && v[1] == UPPER
    requires range == Range(None, None) && fileLimit > 1 && UpToLimit(Overlapping(v[1], range), n, fileLimit)
    ensures Overlapping(v[1], range)[..n] == UPPER
  {
    var fs := Overlapping(v[1], range);
    assert UPPER[..1] == [LEFT] && UPPER[..0] == [] && UPPER[1] == RIGHT;
    assert Overlapping(UPPER[..0], range) == [] && Overlapping(UPPER[..1], range) == [LEFT];
    assert fs == [LEFT] + [RIGHT];
    assert fs[..1] == [LEFT] && TotalFileSize([LEFT]) == 1;
  }

  /** A request for all keys of level 1 picks that merge. */
  method RequestAll(v: Version, fileLimit: nat, expandedLimit: nat) returns (c: Option<Compaction>)
    requires WellFormed(v) && NoRepeat(v[0]) && Holds(v, STORED) && v[1] == UPPER && fileLimit > 1
    ensures c.Some? && c.value.level == 1 && c.value.in0 == UPPER && c.value.in1 == LOWER
  {
    hide WellFormed, NoRepeat, LegalUpper, Overlapping;
    var all := Range(None, None);
    c := CompactRange(v, 1, all, fileLimit, expandedLimit);
    assert LEFT in v[1] && Overlaps(LEFT, all);
    ghost var n: nat :| UpToLimit(Overlapping(v[1], all), n, fileLimit)
      && Subset(Overlapping(v[1], all)[..n], c.value.in0);
    BothOfLevelOne(v, all, fileLimit, n);
    assert LEFT in UPPER && RIGHT in UPPER;
    TwoOrdered(c.value.in0, LEFT, RIGHT);
    assert OLD_LEFT in v[2] && OLD_RIGHT in v[2];
    TwoOrdered(c.value.in1, OLD_LEFT, OLD_RIGHT);
  }
}
