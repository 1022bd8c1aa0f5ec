/** The database as a state machine, and what every run of it keeps. */
module Engine {
  import opened InternalKeys
  import opened Versions
  import opened Inputs
  import opened Picking
  import opened Merging
  import opened Invisibility
  import opened Builders
  import opened Manifests
  import opened Installs

  /** A merge that has begun: its inputs, the oldest snapshot when it began, and the
      version it reads. */
  datatype Job = Job(level: nat, in0: seq<FileMeta>, in1: seq<FileMeta>, snapshot: nat, inputVersion: Version) {
    function Inputs(): seq<FileMeta> { in0 + in1 }
  }

  /** `history` (every write, in order), `floor` (no read below it is promised) and `used`
      (the numbers of all table files so far) are only there to say what the rest means. */
  datatype State = State(mem: seq<Entry>, imm: Option<seq<Entry>>, version: Version, lastSequence: nat,
                         snapshots: seq<nat>,
                         job: Option<Job>, history: seq<Entry>, floor: nat, used: set<nat>)

  const EMPTY_DB: State := State([], None, NO_FILES, 0, [], None, [], 0, {})

  ghost function Immutable(st: State): seq<Entry> {
    if st.imm.Some? then st.imm.value else []
  }

  ghost function InMemory(st: State): set<Entry> {
    Elements(st.mem) + Elements(Immutable(st))
  }

  ghost function Stored(st: State): set<Entry> {
    InMemory(st) + EntriesOf(st.version)
  }

  ghost predicate JobOk(st: State, job: Job) {
    && Mergeable(st.version, job.level, job.in0, job.in1)
    && BaseStays(job.inputVersion, st.version, job.level, job.Inputs())
    && st.floor <= job.snapshot <= st.lastSequence
    && (forall s :: s in st.snapshots ==> job.snapshot <= s)
    && (Connected(job.Inputs()) ==> LegalLower(st.version[job.level + 1], job.in0, job.in1))
  }

  ghost predicate Layered(st: State) {
    && ValidVersion(st.version) && SortedVersion(st.version)
    && Sorted(st.mem) && Sorted(Immutable(st))
    && Newer(st.mem, Immutable(st))
    && NewerThanVersion(st.mem, st.version) && NewerThanVersion(Immutable(st), st.version)
  }

  ghost predicate Recorded(st: State) {
    && IsHistory(st.history)
    && (forall e :: e in st.history ==> e.key.sequence <= st.lastSequence)
    && st.lastSequence < MAX_SEQUENCE
    && Stored(st) <= Elements(st.history)
  }

  /** At every sequence number from `floor` on, the store answers like its history. */
  ghost predicate Faithful(st: State) {
    forall u, s: nat :: st.floor <= s ==> Read(Stored(st), u, s) == Read(Elements(st.history), u, s)
  }

  ghost predicate SnapshotsOk(st: State) {
    && st.floor <= st.lastSequence
    && (forall s :: s in st.snapshots ==> st.floor <= s <= st.lastSequence)
    && (forall i, j :: 0 <= i < j < |st.snapshots| ==> st.snapshots[i] <= st.snapshots[j])
  }

  ghost predicate NumbersUsed(st: State) {
    forall i, g :: 0 <= i < |st.version| && g in st.version[i] ==> g.number in st.used
  }

  ghost predicate Inv(st: State) {
    && Layered(st) && Recorded(st) && Faithful(st) && SnapshotsOk(st)
    && NumbersUsed(st)
    && (st.job.Some? ==> JobOk(st, st.job.value))
  }

  lemma InitialInv()
    ensures Inv(EMPTY_DB)
  {
    NoFilesIsValid();
    assert Stored(EMPTY_DB) == {} && Elements(EMPTY_DB.history) == {};
  }

  lemma NoFilesIsValid()
    ensures ValidVersion(NO_FILES) && SortedVersion(NO_FILES) && EntriesOf(NO_FILES) == {}
  {
    assert forall i :: 0 <= i < |NO_FILES| ==> NO_FILES[i] == [];
    EmptyLevels(NO_FILES);
  }

  lemma EmptyLevels(v: Version)
    requires |v| == NUM_LEVELS && forall i :: 0 <= i < |v| ==> v[i] == []
    ensures ValidVersion(v) && SortedVersion(v) && EntriesOf(v) == {}
  {}

  lemma StoredUnique(st: State)
    requires Recorded(st)
    ensures UniqueVersions(Stored(st)) && UniqueVersions(EntriesOf(st.version))
  {
    HistoryUnique(st.history);
  }

  // ----- writes -----

  datatype Op = Op(user: UserKey, kind: ValueType, value: Bytes)

  function Stamped(op: Op, sequence: nat): Entry {
    Entry(InternalKey(op.user, sequence, op.kind), op.value)
  }

  function InsertEntry(es: seq<Entry>, e: Entry): seq<Entry> {
    if es == [] then [e]
    else if Less(e.key, es[0].key) then [e] + es
    else [es[0]] + InsertEntry(es[1..], e)
  }

  function WriteOne(st: State, op: Op): State {
    var e := Stamped(op, st.lastSequence + 1);
    st.(mem := InsertEntry(st.mem, e), lastSequence := st.lastSequence + 1, history := st.history + [e])
  }

  /** The operations of a batch get consecutive sequence numbers. */
  function WriteBatch(st: State, ops: seq<Op>): State {
    if ops == [] then st else WriteOne(WriteBatch(st, ops[..|ops|-1]), ops[|ops|-1])
  }

  lemma {:induction false} InsertEntryMembers(es: seq<Entry>, e: Entry)
    requires Sorted(es) && forall x :: x in es ==> x.key.sequence < e.key.sequence
    ensures Sorted(InsertEntry(es, e))
    ensures forall x :: x in InsertEntry(es, e) <==> x in es || x == e
  {
    if es != [] {
      assert es == [es[0]] + es[1..];
      InsertEntryMembers(es[1..], e);
      var r := InsertEntry(es[1..], e);
      if !Less(e.key, es[0].key) {
        forall i | 0 <= i < |r| ensures Less(es[0].key, r[i].key) { assert r[i] in r; }
      } else {
        forall i | 0 <= i < |es| ensures Less(e.key, es[i].key) { if i > 0 { assert Less(es[0].key, es[i].key); } }
      }
    }
  }

  lemma WriteOneKeepsInv(st: State, op: Op)
    requires Inv(st) && st.lastSequence + 1 < MAX_SEQUENCE
    ensures Inv(WriteOne(st, op))
  {
    var st' := WriteOne(st, op);
    var e := Stamped(op, st.lastSequence + 1);
    WriteOneLayered(st, e);
    WriteOneFaithful(st, e, st');
    if st.job.Some? { assert JobOk(st', st.job.value); }
  }

  lemma WriteOneLayered(st: State, e: Entry)
    requires Layered(st) && Recorded(st) && e.key.sequence == st.lastSequence + 1
    ensures Layered(st.(mem := InsertEntry(st.mem, e)))
    ensures Stored(st.(mem := InsertEntry(st.mem, e))) == Stored(st) + {e}
  {
    forall x | x in Stored(st) ensures x.key.sequence < e.key.sequence {
      assert x in Elements(st.history);
    }
    assert forall x :: x in st.mem ==> x in Stored(st);
    InsertEntryMembers(st.mem, e);
    NewestEverywhere(st, e);
  }

  lemma WriteOneFaithful(st: State, e: Entry, st': State)
    requires Recorded(st) && Faithful(st)
    requires e.key.sequence == st.lastSequence + 1 == st'.lastSequence < MAX_SEQUENCE
    requires st'.history == st.history + [e] && Stored(st') == Stored(st) + {e} && st'.floor == st.floor
    ensures Recorded(st') && Faithful(st')
  {
    HistoryGrows(st.history, e);
    assert Recorded(st');
    HistoryUnique(st'.history);
    assert forall x :: x in Stored(st) ==> x in st.history;
    hide UniqueVersions, Newest, Candidate, Payload, Stored;
    forall u, s: nat | st.floor <= s ensures Read(Stored(st'), u, s) == Read(Elements(st'.history), u, s) {
      ReadAfterWrite(st.history, e, u, s);
      UniqueIn(st'.history, Stored(st) + {e});
      ReadWithNewest(Stored(st), e, u, s);
      assert Read(Stored(st), u, s) == Read(Elements(st.history), u, s);
    }
  }

  lemma HistoryGrows(h: seq<Entry>, e: Entry)
    requires IsHistory(h) && forall x :: x in h ==> x.key.sequence < e.key.sequence
    ensures IsHistory(h + [e]) && Elements(h + [e]) == Elements(h) + {e}
  {
    assert forall i :: 0 <= i < |h| ==> h[i] in h;
  }

  lemma UniqueIn(h: seq<Entry>, E: set<Entry>)
    requires IsHistory(h) && E <= Elements(h)
    ensures UniqueVersions(E)
  {
    HistoryUnique(h);
  }

  lemma NewestEverywhere(st: State, e: Entry)
    requires Layered(st) && forall x :: x in Stored(st) ==> x.key.sequence < e.key.sequence
    requires Sorted(InsertEntry(st.mem, e)) && forall x :: x in InsertEntry(st.mem, e) <==> x in st.mem || x == e
    ensures Newer(InsertEntry(st.mem, e), Immutable(st)) && NewerThanVersion(InsertEntry(st.mem, e), st.version)
  {
    forall i, g | 0 <= i < |st.version| && g in st.version[i] ensures Newer(InsertEntry(st.mem, e), g.entries) {
      assert forall x :: x in g.entries ==> x in Contents(st.version[i]);
      NewerWith(st.mem, InsertEntry(st.mem, e), e, g.entries);
    }
    assert forall x :: x in Immutable(st) ==> x in Stored(st);
    NewerWith(st.mem, InsertEntry(st.mem, e), e, Immutable(st));
  }

  lemma NewerWith(A: seq<Entry>, A': seq<Entry>, e: Entry, B: seq<Entry>)
    requires Newer(A, B) && (forall x :: x in A' <==> x in A || x == e) && forall x :: x in B ==>
             x.key.sequence < e.key.sequence
    ensures Newer(A', B)
  {}

  lemma ReadWithNewest(E: set<Entry>, e: Entry, u: UserKey, s: nat)
    requires UniqueVersions(E + {e}) && forall x :: x in E ==> x.key.sequence < e.key.sequence
    ensures Read(E + {e}, u, s) == if Candidate(e, u, s) then Payload(e) else Read(E, u, s)
  {
    if Candidate(e, u, s) {
      assert Newest(E + {e}, u, s, e);
      ReadNewest(E + {e}, u, s, e);
    } else if c :| c in E && Candidate(c, u, s) {
      var n := NewestExists(E, u, s, c);
      assert Newest(E + {e}, u, s, n);
      assert UniqueVersions(E);
      ReadNewest(E, u, s, n);
      ReadNewest(E + {e}, u, s, n);
    } else {
      ReadNothing(E, u, s);
      ReadNothing(E + {e}, u, s);
    }
  }

  // ----- the steps -----

  datatype Step =
    | Write(ops: seq<Op>)
    | LoseSequence(n: nat)
    | Rotate
    | Flush(file: Option<FileMeta>, place: nat)
    | Move(moved: FileMeta, level: nat)
    | Begin(level: nat, in0: seq<FileMeta>, in1: seq<FileMeta>)
    | Install(input: seq<Entry>, outs: seq<FileMeta>)
    | Abandon
    | TakeSnapshot
    | ReleaseSnapshot(index: nat)

  function SmallestSnapshot(st: State): nat {
    if st.snapshots == [] then st.lastSequence else st.snapshots[0]
  }

  ghost predicate MayFlush(st: State, file: Option<FileMeta>, place: nat) {
    && st.imm.Some?
    && (file.None? <==> st.imm.value == [])
    && (file.Some? ==> ValidFile(file.value) && file.value.entries == st.imm.value
                       && Placeable(st.version, file.value, place)
                       && FreshNumber(st.version, file.value.number) && file.value.number !in st.used)
  }

  /** The merge that was begun has produced `outs`. */
  ghost predicate IsMerged(st: State, input: seq<Entry>, outs: seq<FileMeta>) {
    && st.job.Some?
    && var j := st.job.value;
    && Merged(j.Inputs(), input, outs, j.snapshot, j.inputVersion, j.level)
    && NewNumbers(st.version, outs) && (forall o :: o in outs ==> o.number !in st.used)
    && j.level + 1 < |st.version|
  }

  ghost predicate MayInstall(st: State, input: seq<Entry>, outs: seq<FileMeta>) {
    IsMerged(st, input, outs) && Fits(st.version, st.job.value.level, st.job.value.in1, outs)
  }

  ghost predicate Enabled(st: State, step: Step) {
    |st.version| == NUM_LEVELS &&
    match step
    case Write(ops) => st.lastSequence + |ops| < MAX_SEQUENCE
    case LoseSequence(n) => st.lastSequence + n < MAX_SEQUENCE
    case Rotate => st.imm.None?
    case Flush(file, place) => MayFlush(st, file, place)
    case Move(f, level) => st.job.None? && Legal(st.version, level, [f], [])
    case Begin(level, in0, in1) => st.job.None? && Legal(st.version, level, in0, in1)
    case Install(input, outs) => MayInstall(st, input, outs)
    case Abandon => true
    case TakeSnapshot => true
    case ReleaseSnapshot(i) => i < |st.snapshots|
  }

  ghost function FlushNext(st: State, file: Option<FileMeta>, place: nat): State
    requires MayFlush(st, file, place) && |st.version| == NUM_LEVELS
  {
    if file.None? then st.(imm := None)
    else st.(imm := None, version := Edited(st.version, FlushEdit(file.value, place)),
      used := st.used + {file.value.number})
  }

  ghost function InstallNext(st: State, outs: seq<FileMeta>): State
    requires st.job.Some? && |st.version| == NUM_LEVELS
  {
    var j := st.job.value;
    st.(version := Edited(st.version, InstallEdit(j.level, j.in0, j.in1, outs)), job := None,
        floor := if st.floor < j.snapshot then j.snapshot else st.floor,
        used := st.used + set o | o in outs :: o.number)
  }

  ghost function Next(st: State, step: Step): State
    requires Enabled(st, step)
  {
    match step
    case Write(ops) => WriteBatch(st, ops)
    case LoseSequence(n) => st.(lastSequence := st.lastSequence + n)
    case Rotate => st.(mem := [], imm := Some(st.mem))
    case Flush(file, place) => FlushNext(st, file, place)
    case Move(f, level) => st.(version := Edited(st.version, MoveEdit(f, level)))
    case Begin(level, in0, in1) => st.(job := Some(Job(level, in0, in1, SmallestSnapshot(st), st.version)))
    case Install(input, outs) => InstallNext(st, outs)
    case Abandon => st.(job := None)
    case TakeSnapshot => st.(snapshots := st.snapshots + [st.lastSequence])
    case ReleaseSnapshot(i) => st.(snapshots := st.snapshots[..i] + st.snapshots[i+1..])
  }

  lemma {:induction false} WriteBatchKeepsInv(st: State, ops: seq<Op>)
    requires Inv(st) && st.lastSequence + |ops| < MAX_SEQUENCE
    ensures Inv(WriteBatch(st, ops)) && WriteBatch(st, ops).lastSequence == st.lastSequence + |ops|
    ensures WriteBatch(st, ops).floor == st.floor
  {
    if ops != [] {
      WriteBatchKeepsInv(st, ops[..|ops|-1]);
      WriteOneKeepsInv(WriteBatch(st, ops[..|ops|-1]), ops[|ops|-1]);
    }
  }

  lemma RotateKeepsInv(st: State)
    requires Inv(st) && st.imm.None?
    ensures Inv(st.(mem := [], imm := Some(st.mem)))
  {
    var st' := st.(mem := [], imm := Some(st.mem));
    assert Stored(st') == Stored(st);
    forall u, s: nat | st.floor <= s ensures Read(Stored(st'), u, s) == Read(Elements(st'.history), u, s) {
      assert Read(Stored(st), u, s) == Read(Elements(st.history), u, s);
    }
    if st.job.Some? { assert JobOk(st', st.job.value); }
  }

  lemma SnapshotKeepsInv(st: State)
    requires Inv(st)
    ensures Inv(st.(snapshots := st.snapshots + [st.lastSequence]))
  {
    hide Layered, Faithful, SnapshotsOk, JobOk;
    var st' := st.(snapshots := st.snapshots + [st.lastSequence]);
    SameStore(st, st');
    SnapshotAppended(st);
    if st.job.Some? { JobSeesSnapshot(st, st.job.value); }
  }

  lemma SnapshotAppended(st: State)
    requires SnapshotsOk(st)
    ensures SnapshotsOk(st.(snapshots := st.snapshots + [st.lastSequence]))
  {
    assert forall i :: 0 <= i < |st.snapshots| ==> st.snapshots[i] in st.snapshots;
  }

  lemma JobSeesSnapshot(st: State, job: Job)
    requires JobOk(st, job)
    ensures JobOk(st.(snapshots := st.snapshots + [st.lastSequence]), job)
  {
    hide Mergeable, BaseStays, Connected, LegalLower;
  }

  lemma ReleaseKeepsInv(st: State, i: nat)
    requires Inv(st) && i < |st.snapshots|
    ensures Inv(st.(snapshots := st.snapshots[..i] + st.snapshots[i+1..]))
  {
    var st' := st.(snapshots := st.snapshots[..i] + st.snapshots[i+1..]);
    SameStore(st, st');
    assert forall s :: s in st'.snapshots ==> s in st.snapshots;
    if st.job.Some? { assert JobOk(st', st.job.value); }
  }

  lemma SameStore(st: State, st': State)
    requires Layered(st) && Recorded(st) && Faithful(st)
    requires st' == st.(snapshots := st'.snapshots, lastSequence := st'.lastSequence, job := st'.job)
    requires st.lastSequence <= st'.lastSequence < MAX_SEQUENCE
    ensures Layered(st') && Recorded(st') && Faithful(st')
  {
    forall u, s: nat | st.floor <= s ensures Read(Stored(st'), u, s) == Read(Elements(st'.history), u, s) {
      assert Read(Stored(st), u, s) == Read(Elements(st.history), u, s);
    }
  }

  lemma LoseSequenceKeepsInv(st: State, n: nat)
    requires Inv(st) && st.lastSequence + n < MAX_SEQUENCE
    ensures Inv(st.(lastSequence := st.lastSequence + n))
  {
    var st' := st.(lastSequence := st.lastSequence + n);
    SameStore(st, st');
    if st.job.Some? { assert JobOk(st', st.job.value); }
  }

  lemma OldestSnapshot(st: State)
    requires SnapshotsOk(st)
    ensures st.floor <= SmallestSnapshot(st) <= st.lastSequence
    ensures forall s :: s in st.snapshots ==> SmallestSnapshot(st) <= s
  {
    forall s | s in st.snapshots ensures SmallestSnapshot(st) <= s {
      var i :| 0 <= i < |st.snapshots| && st.snapshots[i] == s;
    }
    if st.snapshots != [] { assert st.snapshots[0] in st.snapshots; }
  }

  lemma BeginKeepsInv(st: State, level: nat, in0: seq<FileMeta>, in1: seq<FileMeta>)
    requires Inv(st) && Legal(st.version, level, in0, in1)
    ensures Inv(st.(job := Some(Job(level, in0, in1, SmallestSnapshot(st), st.version))))
  {
    var st' := st.(job := Some(Job(level, in0, in1, SmallestSnapshot(st), st.version)));
    SameStore(st, st');
    BeginJobOk(st, st', level, in0, in1);
  }

  lemma BeginJobOk(st: State, st': State, level: nat, in0: seq<FileMeta>, in1: seq<FileMeta>)
    requires ValidVersion(st.version) && Recorded(st) && SnapshotsOk(st) && Legal(st.version, level, in0, in1)
    requires st' == st.(job := Some(Job(level, in0, in1, SmallestSnapshot(st), st.version)))
    ensures JobOk(st', st'.job.value)
  {
    hide ValidVersion, Recorded, LegalLower, LegalUpper, Mergeable, Connected, BaseLevel;
    StoredUnique(st);
    OldestSnapshot(st);
    LegalIsMergeable(st.version, level, in0, in1);
  }

  lemma UpperIsNewer(st: State)
    requires NewerThanVersion(st.mem, st.version) && NewerThanVersion(Immutable(st), st.version)
    ensures SetNewer(InMemory(st), EntriesOf(st.version))
  {
    hide Newer;
    forall x, e | x in InMemory(st) && e in EntriesOf(st.version) && x.key.user == e.key.user
      ensures x.key.sequence > e.key.sequence {
      var i :| 0 <= i < |st.version| && e in Contents(st.version[i]);
      var g :| g in st.version[i] && e in g.entries;
      NewerEntry(if x in st.mem then st.mem else Immutable(st), g.entries, x, e);
    }
  }

  lemma VersionLength(v: Version)
    requires ValidVersion(v)
    ensures |v| == NUM_LEVELS
  {}

  /** A step that changes neither the stored entries nor the history keeps the answers. */
  lemma SameEntries(st: State, st': State)
    requires Faithful(st) && Recorded(st)
    requires Stored(st') == Stored(st) && st'.history == st.history && st'.floor == st.floor
             && st'.lastSequence == st.lastSequence
    ensures Faithful(st') && Recorded(st')
  {
    forall u, s: nat | st.floor <= s ensures Read(Stored(st'), u, s) == Read(Elements(st'.history), u, s) {
      assert Read(Stored(st), u, s) == Read(Elements(st.history), u, s);
    }
  }

  lemma MovedIsThere(v: Version, f: FileMeta, level: nat)
    requires Legal(v, level, [f], [])
    ensures level + 1 < |v| && f in v[level]
  {
    assert [f][0] == f;
  }

  lemma MoveFile(st: State, f: FileMeta, level: nat)
    requires Layered(st) && NumbersUsed(st) && UniqueVersions(EntriesOf(st.version))
             && Legal(st.version, level, [f], [])
    ensures |st.version| == NUM_LEVELS
    ensures var st' := st.(version := Edited(st.version, MoveEdit(f, level)));
            Layered(st') && NumbersUsed(st') && EntriesOf(st'.version) == EntriesOf(st.version)
  {
    hide ValidVersion, SortedVersion, NewerThanVersion, Newer, Legal, UniqueVersions;
    VersionLength(st.version);
    MovedIsThere(st.version, f, level);
    var w := Edited(st.version, MoveEdit(f, level));
    MoveKeepsVersion(st.version, f, level);
    MoveMembers(st.version, f, level);
    StillNewer(st.mem, st.version, w);
    StillNewer(Immutable(st), st.version, w);
  }

  lemma MoveKeepsInv(st: State, f: FileMeta, level: nat)
    requires Inv(st) && st.job.None? && Legal(st.version, level, [f], [])
    ensures |st.version| == NUM_LEVELS && Inv(st.(version := Edited(st.version, MoveEdit(f, level))))
  {
    hide Layered, NumbersUsed, Faithful, Recorded, Legal, UniqueVersions;
    StoredUnique(st);
    MoveFile(st, f, level);
    var st' := st.(version := Edited(st.version, MoveEdit(f, level)));
    assert Stored(st') == Stored(st);
    SameEntries(st, st');
  }

  lemma StillNewer(es: seq<Entry>, v: Version, w: Version)
    requires NewerThanVersion(es, v) && EntriesOf(w) <= EntriesOf(v)
    ensures NewerThanVersion(es, w)
  {
    forall i, g | 0 <= i < |w| && g in w[i] ensures Newer(es, g.entries) {
      forall a, b | a in es && b in g.entries && a.key.user == b.key.user ensures a.key.sequence > b.key.sequence {
        assert b in Contents(w[i]) && b in EntriesOf(w) && b in EntriesOf(v);
        var j :| 0 <= j < |v| && b in Contents(v[j]);
        var h :| h in v[j] && b in h.entries;
        NewerEntry(es, h.entries, a, b);
      }
    }
  }

  lemma FlushEntries(v: Version, w: Version, f: FileMeta, p: nat)
    requires |w| == |v| && p < |v|
    requires forall l, g :: 0 <= l < |v| ==> (g in w[l] <==> g in v[l] || (l == p && g == f))
    ensures EntriesOf(w) == EntriesOf(v) + Elements(f.entries)
  {
    forall e | e in EntriesOf(w) ensures e in EntriesOf(v) + Elements(f.entries) {
      var i :| 0 <= i < |w| && e in Contents(w[i]);
      var g :| g in w[i] && e in g.entries;
      if g in v[i] { assert e in Contents(v[i]); }
    }
    forall e | e in EntriesOf(v) + Elements(f.entries) ensures e in EntriesOf(w) {
      if e in f.entries {
        assert f in w[p] && e in Contents(w[p]);
      } else {
        var i :| 0 <= i < |v| && e in Contents(v[i]);
        var g :| g in v[i] && e in g.entries;
        assert g in w[i] && e in Contents(w[i]);
      }
    }
  }

  lemma FlushKeepsJob(st: State, st': State, f: FileMeta, p: nat)
    requires st.job.Some? && JobOk(st, st.job.value) && Layered(st) && ValidFile(f) && f.entries == Immutable(st)
             && Placeable(st.version, f, p)
    requires st' == st.(imm := None, version := st'.version, used := st'.used)
             && |st'.version| == |st.version| == NUM_LEVELS
    requires forall l, g :: 0 <= l < |st.version| ==>
             (g in st'.version[l] <==> g in st.version[l] || (l == p && g == f))
    ensures JobOk(st', st.job.value)
  {
    hide Connected, BaseStays, Newer, ValidFile, Above, NewestByNumber, DistinctNumbers, SortedVersion, Ordered;
    var j := st.job.value;
    FlushKeepsMergeable(st.version, st'.version, f, p, j.level, j.in0, j.in1);
    FlushKeepsBase(j.inputVersion, st.version, st'.version, f, p, j.level, j.in0, j.in1);
    if Connected(j.Inputs()) {
      InputsValid(st.version, j.level, j.in0, j.in1);
      if p == j.level + 1 { FlushMissesConnectedInputs(st.version, f, j.level, j.in0, j.in1); }
    }
  }

  lemma FlushKeepsInv(st: State, file: Option<FileMeta>, place: nat)
    requires Inv(st) && MayFlush(st, file, place)
    ensures |st.version| == NUM_LEVELS && Inv(FlushNext(st, file, place))
  {
    hide ValidVersion, SortedVersion, NewerThanVersion, Newer, Faithful, Recorded, JobOk, FreshNumber, Placeable,
         ValidFile;
    VersionLength(st.version);
    var st' := FlushNext(st, file, place);
    if file.Some? {
      FlushFile(st, st', file.value, place);
    } else if st.job.Some? {
      NewerThanEmpty(st.version, st.mem);
      SameJob(st, st', st.job.value);
    } else {
      NewerThanEmpty(st.version, st.mem);
    }
    assert Stored(st') == Stored(st);
    SameEntries(st, st');
  }

  lemma NewerThanEmpty(v: Version, es: seq<Entry>)
    ensures NewerThanVersion([], v) && Newer(es, [])
  {}

  lemma SameJob(st: State, st': State, job: Job)
    requires JobOk(st, job) && st'.version == st.version && st'.floor == st.floor
    requires st'.lastSequence == st.lastSequence && st'.snapshots == st.snapshots
    ensures JobOk(st', job)
  {}

  lemma FlushFile(st: State, st': State, f: FileMeta, p: nat)
    requires Layered(st) && NumbersUsed(st) && (st.job.Some? ==> JobOk(st, st.job.value)) && |st.version| == NUM_LEVELS
    requires MayFlush(st, Some(f), p) && st' == FlushNext(st, Some(f), p)
    ensures Layered(st') && NumbersUsed(st')
            && EntriesOf(st'.version) == EntriesOf(st.version) + Elements(Immutable(st))
    ensures st'.job.Some? ==> JobOk(st', st'.job.value)
  {
    hide ValidVersion, SortedVersion, Newer, JobOk, FreshNumber, ValidFile;
    FlushMembers(st.version, f, p);
    FlushKeepsVersion(st.version, f, p);
    FlushEntries(st.version, st'.version, f, p);
    FlushLayers(st, st'.version, f, p);
    NewerThanEmpty(st'.version, st.mem);
    if st.job.Some? { FlushKeepsJob(st, st', f, p); }
  }

  lemma FlushLayers(st: State, w: Version, f: FileMeta, p: nat)
    requires NewerThanVersion(st.mem, st.version) && Newer(st.mem, Immutable(st)) && f.entries == Immutable(st)
    requires |w| == |st.version| && forall l, g :: 0 <= l < |w| ==>
             (g in w[l] <==> g in st.version[l] || (l == p && g == f))
    ensures NewerThanVersion(st.mem, w)
  {
    hide Newer;
  }

  lemma InstallKeepsInv(st: State, input: seq<Entry>, outs: seq<FileMeta>)
    requires Inv(st) && MayInstall(st, input, outs)
    ensures |st.version| == NUM_LEVELS && Inv(InstallNext(st, outs))
  {
    hide ValidVersion, SortedVersion, NewerThanVersion, Newer, Faithful, Recorded, Merged, Mergeable, BaseStays,
         OutputFiles, Fits, NewNumbers, LegalLower, Connected;
    VersionLength(st.version);
    var j, st' := st.job.value, InstallNext(st, outs);
    var v, w := st.version, st'.version;
    JobOutputs(st, input, outs);
    InstallKeepsVersion(v, j.level, j.in0, j.in1, outs);
    InstallMembers(v, j.level, j.in0, j.in1, outs);
    InstallEntries(v, w, j.level, j.in0, j.in1, outs);
    StillNewer(st.mem, v, w);
    StillNewer(Immutable(st), v, w);
    InstallFaithful(st, st', input, outs);
  }

  lemma JobOutputs(st: State, input: seq<Entry>, outs: seq<FileMeta>)
    requires Layered(st) && st.job.Some? && JobOk(st, st.job.value) && IsMerged(st, input, outs)
    ensures OutputFiles(st.version, st.job.value.Inputs(), outs)
    ensures var j := st.job.value;
            && j.level + 1 < |st.version| && Subset(j.in0, st.version[j.level])
               && Subset(j.in1, st.version[j.level + 1])
            && Contents(outs) <= Contents(j.Inputs())
  {
    var j := st.job.value;
    InputsValid(st.version, j.level, j.in0, j.in1);
    MergedFiles(j.Inputs(), input, outs, j.snapshot, j.inputVersion, j.level);
  }

  lemma InstallEntries(v: Version, w: Version, level: nat, in0: seq<FileMeta>, in1: seq<FileMeta>, outs: seq<FileMeta>)
    requires |w| == |v| && level + 1 < |v| && Subset(in0, v[level]) && Subset(in1, v[level + 1])
    requires forall l: nat, g :: l < |w| ==> (g in w[l] <==> AfterInstall(v, level, in0, in1, outs, l, g))
    requires Contents(outs) <= Contents(in0 + in1)
    ensures EntriesOf(w) <= EntriesOf(v)
  {
    SplitEntries(v, w, level, in0, in1, outs);
  }

  lemma InstallFaithful(st: State, st': State, input: seq<Entry>, outs: seq<FileMeta>)
    requires Inv(st) && MayInstall(st, input, outs) && |st.version| == NUM_LEVELS && st' == InstallNext(st, outs)
    requires |st'.version| == NUM_LEVELS && EntriesOf(st'.version) <= EntriesOf(st.version)
    requires forall l: nat, g :: l < NUM_LEVELS ==>
               (g in st'.version[l] <==>
                 AfterInstall(st.version, st.job.value.level, st.job.value.in0, st.job.value.in1, outs, l, g))
    ensures Faithful(st') && Recorded(st')
  {
    hide ValidVersion, SortedVersion, NewerThanVersion, Newer, Merged, Mergeable, BaseStays, OutputFiles, Fits,
         NewNumbers, LegalLower, Connected, UniqueVersions, SetNewer;
    StoredUnique(st);
    UpperIsNewer(st);
    var j := st.job.value;
    forall u, s: nat | st'.floor <= s ensures Read(Stored(st'), u, s) == Read(Elements(st'.history), u, s) {
      InstallIsInvisible(st.version, st'.version, j.level, j.in0, j.in1, input, outs, j.snapshot, j.inputVersion,
        InMemory(st), u, s);
      assert Read(Stored(st), u, s) == Read(Elements(st.history), u, s);
    }
  }

  // ----- every run -----

  lemma StepKeepsInv(st: State, step: Step)
    requires Inv(st) && Enabled(st, step)
    ensures Inv(Next(st, step))
  {
    hide Layered, Recorded, Faithful, SnapshotsOk, NumbersUsed, JobOk, MayFlush, MayInstall, Legal;
    match step
    case Write(ops) => WriteBatchKeepsInv(st, ops);
    case LoseSequence(n) => LoseSequenceKeepsInv(st, n);
    case Rotate => RotateKeepsInv(st);
    case Flush(file, place) => FlushKeepsInv(st, file, place);
    case Move(f, level) => MoveKeepsInv(st, f, level);
    case Begin(level, in0, in1) => BeginKeepsInv(st, level, in0, in1);
    case Install(input, outs) => InstallKeepsInv(st, input, outs);
    case Abandon => AbandonKeepsInv(st);
    case TakeSnapshot => SnapshotKeepsInv(st);
    case ReleaseSnapshot(i) => ReleaseKeepsInv(st, i);
  }

  lemma AbandonKeepsInv(st: State)
    requires Inv(st)
    ensures Inv(st.(job := None))
  {
    SameStore(st, st.(job := None));
  }

  ghost predicate IsRun(st: State, steps: seq<Step>)
    decreases |steps|
  {
    steps == [] || (Enabled(st, steps[0]) && IsRun(Next(st, steps[0]), steps[1..]))
  }

  ghost function Final(st: State, steps: seq<Step>): State
    requires IsRun(st, steps)
    decreases |steps|
  {
    if steps == [] then st else Final(Next(st, steps[0]), steps[1..])
  }

  lemma {:induction false} RunKeepsInv(st: State, steps: seq<Step>)
    requires Inv(st) && IsRun(st, steps)
    ensures Inv(Final(st, steps))
    decreases |steps|
  {
    if steps != [] {
      StepKeepsInv(st, steps[0]);
      RunKeepsInv(Next(st, steps[0]), steps[1..]);
    }
  }

  lemma FittingRunAnswers(steps: seq<Step>, u: UserKey, s: nat)
    requires IsRun(EMPTY_DB, steps)
    requires var st := Final(EMPTY_DB, steps); s == st.lastSequence || s in st.snapshots
    ensures var st := Final(EMPTY_DB, steps);
            ValidVersion(st.version) && Read(Stored(st), u, s) == Lookup(MapAt(st.history, s), u)
  {
    hide Layered, JobOk, NumbersUsed;
    InitialInv();
    RunKeepsInv(EMPTY_DB, steps);
    var st := Final(EMPTY_DB, steps);
    assert st.floor <= s && Read(Stored(st), u, s) == Read(Elements(st.history), u, s);
    ReadIsMapLookup(st.history, u, s);
    LayeredVersion(st);
  }

  lemma LayeredVersion(st: State)
    requires Layered(st)
    ensures ValidVersion(st.version)
  {}

  // ----- the code does not look whether outputs fit -----

  /** What the code may do next: it installs the outputs of a merge without a look at the files
      on their level. */
  ghost predicate Possible(st: State, step: Step) {
    if step.Install? then |st.version| == NUM_LEVELS && IsMerged(st, step.input, step.outs) else Enabled(st, step)
  }

  ghost function Performed(st: State, step: Step): State
    requires Possible(st, step)
  {
    if step.Install? then InstallNext(st, step.outs) else Next(st, step)
  }

  /** The outputs of a merge lie beside the files that stayed on their level. */
  ghost predicate OutcomeFits(st: State, step: Step)
    requires Possible(st, step)
  {
    step.Install? ==> Fits(st.version, st.job.value.level, st.job.value.in1, step.outs)
  }

  /** An installation keeps the invariant exactly when the outputs fit. */
  lemma InstallKeepsInvIffFits(st: State, input: seq<Entry>, outs: seq<FileMeta>)
    requires Inv(st) && Possible(st, Install(input, outs))
    ensures var j := st.job.value;
            Inv(Performed(st, Install(input, outs))) <==> Fits(st.version, j.level, j.in1, outs)
  {
    hide ValidVersion, SortedVersion, NewerThanVersion, Newer, Faithful, Recorded, Merged, Mergeable, BaseStays,
         OutputFiles, Fits, NewNumbers, LegalLower, Connected;
    var j := st.job.value;
    if Fits(st.version, j.level, j.in1, outs) {
      InstallKeepsInv(st, input, outs);
    } else {
      JobOutputs(st, input, outs);
      InstallIsValidIffFits(st.version, j.level, j.in0, j.in1, outs);
    }
  }

  /** Every step that the code may take keeps the invariant, but for an installation of outputs
      that do not fit, which breaks it. */
  lemma CodeStepKeepsInvIffFits(st: State, step: Step)
    requires Inv(st) && Possible(st, step)
    ensures Inv(Performed(st, step)) <==> OutcomeFits(st, step)
  {
    hide Inv, Enabled, Fits, IsMerged, InstallNext;
    if step.Install? {
      InstallKeepsInvIffFits(st, step.input, step.outs);
    } else {
      StepKeepsInv(st, step);
    }
  }

  lemma FittingIsEnabled(st: State, step: Step)
    requires Possible(st, step) && OutcomeFits(st, step)
    ensures Enabled(st, step)
  {}

  ghost predicate IsCodeRun(st: State, steps: seq<Step>)
    decreases |steps|
  {
    steps == [] || (Possible(st, steps[0]) && IsCodeRun(Performed(st, steps[0]), steps[1..]))
  }

  ghost function CodeFinal(st: State, steps: seq<Step>): State
    requires IsCodeRun(st, steps)
    decreases |steps|
  {
    if steps == [] then st else CodeFinal(Performed(st, steps[0]), steps[1..])
  }

  ghost predicate EveryOutcomeFits(st: State, steps: seq<Step>)
    requires IsCodeRun(st, steps)
    decreases |steps|
  {
    steps == [] || (OutcomeFits(st, steps[0]) && EveryOutcomeFits(Performed(st, steps[0]), steps[1..]))
  }

  /** The invariant holds in every state of the run. */
  ghost predicate StaysSound(st: State, steps: seq<Step>)
    requires IsCodeRun(st, steps)
    decreases |steps|
  {
    Inv(st) && (steps == [] || StaysSound(Performed(st, steps[0]), steps[1..]))
  }

  lemma {:induction false} SoundIffEveryOutcomeFits(st: State, steps: seq<Step>)
    requires Inv(st) && IsCodeRun(st, steps)
    ensures StaysSound(st, steps) <==> EveryOutcomeFits(st, steps)
    decreases |steps|
  {
    hide Inv, Possible, Performed, OutcomeFits;
    if steps != [] {
      var next := Performed(st, steps[0]);
      CodeStepKeepsInvIffFits(st, steps[0]);
      if Inv(next) {
        SoundIffEveryOutcomeFits(next, steps[1..]);
      } else {
        NotSound(next, steps[1..]);
      }
    }
  }

  lemma NotSound(st: State, steps: seq<Step>)
    requires !Inv(st) && IsCodeRun(st, steps)
    ensures !StaysSound(st, steps)
  {}

  lemma {:induction false} FittingRun(st: State, steps: seq<Step>)
    requires IsCodeRun(st, steps) && EveryOutcomeFits(st, steps)
    ensures IsRun(st, steps) && Final(st, steps) == CodeFinal(st, steps)
    decreases |steps|
  {
    hide Possible, Enabled, Performed, Next, OutcomeFits;
    if steps != [] {
      FittingIsEnabled(st, steps[0]);
      SameStep(st, steps[0]);
      FittingRun(Next(st, steps[0]), steps[1..]);
    }
  }

  /** In every run whose installations fit, and so in every run that stays sound, at every
      sequence number that can still be read (every snapshot that is held, and the last sequence
      number), the store answers like the plain map that the writes up to there produce. */
  lemma RunAnswersLikeMap(steps: seq<Step>, u: UserKey, s: nat)
    requires IsCodeRun(EMPTY_DB, steps) && EveryOutcomeFits(EMPTY_DB, steps)
    requires var st := CodeFinal(EMPTY_DB, steps); s == st.lastSequence || s in st.snapshots
    ensures StaysSound(EMPTY_DB, steps)
    ensures var st := CodeFinal(EMPTY_DB, steps);
            ValidVersion(st.version) && Read(Stored(st), u, s) == Lookup(MapAt(st.history, s), u)
  {
    hide Inv, Possible, Enabled, OutcomeFits;
    InitialInv();
    SoundIffEveryOutcomeFits(EMPTY_DB, steps);
    FittingRun(EMPTY_DB, steps);
    FittingRunAnswers(steps, u, s);
  }

  /** The inputs of every merge that begins leave no gap, as those of a picked compaction do. */
  ghost predicate NoGaps(steps: seq<Step>) {
    forall step :: step in steps && step.Begin? ==> Connected(step.in0 + step.in1)
  }

  ghost predicate JobHasNoGap(st: State) {
    st.job.Some? ==> Connected(st.job.value.Inputs())
  }

  lemma StepKeepsNoGap(st: State, step: Step)
    requires Inv(st) && JobHasNoGap(st) && Possible(st, step) && (step.Begin? ==> Connected(step.in0 + step.in1))
    ensures Enabled(st, step) && JobHasNoGap(Next(st, step))
  {
    hide Layered, Recorded, Faithful, SnapshotsOk, NumbersUsed, JobOk, Fits, Merged, NewNumbers, Connected;
    match step
    case Write(ops) => WriteKeepsJob(st, ops);
    case Install(input, outs) => ConnectedJobFits(st, input, outs);
    case _ =>
  }

  lemma {:induction false} WriteKeepsJob(st: State, ops: seq<Op>)
    ensures WriteBatch(st, ops).job == st.job
  {
    if ops != [] { WriteKeepsJob(st, ops[..|ops|-1]); }
  }

  lemma {:induction false} RunWithoutGaps(st: State, steps: seq<Step>)
    requires Inv(st) && JobHasNoGap(st) && IsCodeRun(st, steps) && NoGaps(steps)
    ensures IsRun(st, steps) && Final(st, steps) == CodeFinal(st, steps)
    decreases |steps|
  {
    hide Inv, Possible, Enabled, JobHasNoGap, Connected;
    if steps != [] {
      assert steps[0] in steps;
      StepKeepsNoGap(st, steps[0]);
      StepKeepsInv(st, steps[0]);
      SameStep(st, steps[0]);
      RunWithoutGaps(Next(st, steps[0]), steps[1..]);
    }
  }

  lemma SameStep(st: State, step: Step)
    requires Possible(st, step) && Enabled(st, step)
    ensures Performed(st, step) == Next(st, step)
  {}

  /** Without requested compactions over a gap nothing needs to be checked: whatever is flushed
      while merges run, every outcome fits and every read answers like the plain map. */
  lemma CodeRunAnswersLikeMap(steps: seq<Step>, u: UserKey, s: nat)
    requires IsCodeRun(EMPTY_DB, steps) && NoGaps(steps)
    requires var st := CodeFinal(EMPTY_DB, steps); s == st.lastSequence || s in st.snapshots
    ensures var st := CodeFinal(EMPTY_DB, steps);
            ValidVersion(st.version) && Read(Stored(st), u, s) == Lookup(MapAt(st.history, s), u)
  {
    hide Inv, Possible, Enabled;
    InitialInv();
    RunWithoutGaps(EMPTY_DB, steps);
    FittingRunAnswers(steps, u, s);
  }

  /** While the inputs of a merge leave no gap, its outputs fit, whatever was flushed meanwhile. */
  lemma ConnectedJobFits(st: State, input: seq<Entry>, outs: seq<FileMeta>)
    requires Inv(st) && st.job.Some? && Connected(st.job.value.Inputs())
    requires var j := st.job.value; Merged(j.Inputs(), input, outs, j.snapshot, j.inputVersion, j.level)
    ensures var j := st.job.value; j.level + 1 < |st.version| && Fits(st.version, j.level, j.in1, outs)
  {
    hide Merged, Recorded, Faithful, LegalLower, Connected, BaseStays;
    var j := st.job.value;
    InputsValid(st.version, j.level, j.in0, j.in1);
    MergedFiles(j.Inputs(), input, outs, j.snapshot, j.inputVersion, j.level);
    LegalFits(st.version[j.level + 1], j.in0, j.in1, outs);
  }

  /** A reader that took its snapshot before later writes reached the memtable it holds does
      not see them. */
  lemma LaterWritesInvisible(E: set<Entry>, N: set<Entry>, u: UserKey, s: nat)
    requires UniqueVersions(E + N) && forall n :: n in N ==> n.key.sequence > s
    ensures Read(E + N, u, s) == Read(E, u, s)
  {
    if c :| c in E && Candidate(c, u, s) {
      var e := NewestExists(E, u, s, c);
      assert Newest(E + N, u, s, e);
      assert UniqueVersions(E);
      ReadNewest(E, u, s, e);
      ReadNewest(E + N, u, s, e);
    } else {
      ReadNothing(E, u, s);
      ReadNothing(E + N, u, s);
    }
  }
}
