/** Crashes and recovery: logs, the manifest and the tables on disk, around the engine. */
module Recovery {
  import opened InternalKeys
  import opened Versions
  import opened Inputs
  import opened Picking
  import opened Invisibility
  import opened Builders
  import opened Manifests
  import opened Installs
  import opened Engine
  import opened ManifestLogs
  import opened Batches
  import opened Replays
  import opened Disks
  import opened PlainMaps

  // ----- a database that runs -----

  /** `st` is the running engine; `logs`, `tables` and `manifest` are what is on disk, and `oldLog`,
      `currentLog`, `manifestLog` and `manifestLast` what the program remembers of it. `batches`
      (every batch so far; the first `flushed` are in tables, those up to `rotated` in the
      immutable memtable) is only there to say what the rest means. */
  datatype Db = Db(st: State, batches: seq<Batch>, flushed: nat, rotated: nat,
                   logs: map<nat, LogFile>, manifestLog: nat, oldLog: nat, currentLog: nat, manifestLast: nat,
                   tables: map<nat, FileMeta>, pending: set<nat>, manifest: seq<Record>)

  function DiskOf(d: Db): Disk { Disk(d.manifest, d.logs, d.tables) }

  /** The memtables and the history are what the batches say. */
  ghost predicate Batched(d: Db) {
    && d.flushed <= d.rotated <= |d.batches|
    && Follow(d.batches, 0) && LastOf(d.batches) <= d.st.lastSequence
    && d.st.history == Writes(d.batches)
    && Elements(Immutable(d.st)) == Elements(Writes(d.batches[d.flushed..d.rotated]))
    && Elements(d.st.mem) == Elements(Writes(d.batches[d.rotated..]))
    && (d.st.imm.None? ==> d.flushed == d.rotated)
  }

  /** The tables alone answer like the flushed batches alone. */
  ghost predicate TablesFaithful(v: Version, h: seq<Entry>, floor: nat) {
    forall u, s: nat :: floor <= s ==> Read(EntriesOf(v), u, s) == Read(Elements(h), u, s)
  }

  /** Batches that are not in tables are in the logs that the manifest asks for, and nothing
      else is. */
  ghost predicate Logged(d: Db) {
    && d.flushed <= d.rotated <= |d.batches|
    && d.currentLog in d.logs && d.logs[d.currentLog].batches == d.batches[d.rotated..]
    && (d.st.imm.Some? ==> d.oldLog in d.logs && d.logs[d.oldLog].batches == d.batches[d.flushed..d.rotated]
                           && d.manifestLog <= d.oldLog < d.currentLog)
    && d.manifestLog <= d.currentLog
    && (forall n :: n in d.logs && n >= d.manifestLog && n != d.currentLog && !(d.st.imm.Some? && n == d.oldLog)
          ==> d.logs[n].batches == [])
    && (forall n :: n in d.logs ==> d.logs[n].synced <= |d.logs[n].batches|)
    && (forall n, i ::
        n in d.logs && n >= d.manifestLog && 0 <= i < |d.logs[n].batches| && d.logs[n].batches[i].sync ==>
          i < d.logs[n].synced)
  }

  /** The manifest leads to the current version and has the numbers that the program remembers. */
  ghost predicate Registered(d: Db) {
    && Manifested(Edits(d.manifest), d.st.version, d.st.used)
    && NamedLog(d.manifest) == Some(d.manifestLog) && NamedLast(d.manifest) == Some(d.manifestLast)
  }

  ghost predicate DbInv(d: Db) {
    && Inv(d.st) && Batched(d) && d.flushed <= |d.batches|
    && TablesFaithful(d.st.version, Writes(d.batches[..d.flushed]), d.st.floor)
    && Logged(d) && Registered(d) && Present(d.st.version, d.tables)
    && LastOf(d.batches[..d.flushed]) <= d.manifestLast <= d.st.lastSequence
  }

  // ----- the tables alone -----

  lemma ThreeParts(d: Db)
    requires Batched(d)
    ensures Elements(d.st.history) == Elements(Writes(d.batches[..d.flushed])) + InMemory(d.st)
    ensures d.batches == d.batches[..d.flushed] + (d.batches[d.flushed..d.rotated] + d.batches[d.rotated..])
  {
    hide StampFrom, Writes, Follow;
    var a, b, c := d.batches[..d.flushed], d.batches[d.flushed..d.rotated], d.batches[d.rotated..];
    assert d.batches == a + (b + c);
    WritesConcat(a, b + c);
    WritesConcat(b, c);
    ElementsConcat(Writes(a), Writes(b) + Writes(c));
    ElementsConcat(Writes(b), Writes(c));
  }

  /** The entries of the version are writes of the flushed batches. */
  lemma TablesHoldFlushed(d: Db)
    requires Inv(d.st) && Batched(d)
    ensures EntriesOf(d.st.version) <= Elements(Writes(d.batches[..d.flushed]))
  {
    hide Layered, Faithful, SnapshotsOk, NumbersUsed, JobOk, Batched, Writes, EntriesOf, IsHistory, InMemory;
    ThreeParts(d);
    LayeredNewer(d.st);
  }

  // ----- the steps -----

  datatype DbStep =
    | Append(ops: seq<Op>, sync: bool)
    | Quiet(step: Step)
    | SwitchLog(n: nat)
    | Build(built: FileMeta)
    | FlushTable(file: Option<FileMeta>, place: nat)
    | MoveTable(moved: FileMeta, level: nat)
    | InstallTables(input: seq<Entry>, outs: seq<FileMeta>)
    | Collect(pinned: set<nat>)
    | CrashAndOpen(crash: Crash, opening: Opening)

  /** Steps of the engine that touch neither a memtable nor a table. */
  predicate IsQuiet(step: Step) {
    step.LoseSequence? || step.Begin? || step.Abandon? || step.TakeSnapshot? || step.ReleaseSnapshot?
  }

  /** A crash: what is left of the logs; the record of a write that had not been acknowledged may
      be there when everything before it is. */
  ghost predicate CrashOk(d: Db, c: Crash) {
    && Keeps(DiskOf(d), c) && d.currentLog in d.logs
    && |c.inflight| <= 1 && Follow(c.inflight, d.st.lastSequence)
    && (c.inflight != [] ==> c.kept[d.currentLog] == |d.logs[d.currentLog].batches|)
  }

  ghost function Left(d: Db, c: Crash): Disk
    requires CrashOk(d, c)
  {
    AfterCrash(DiskOf(d), d.currentLog, c)
  }

  ghost predicate DbEnabled(d: Db, step: DbStep) {
    && |d.st.version| == NUM_LEVELS && d.currentLog in d.logs && d.flushed <= d.rotated <= |d.batches|
    && match step
       case Append(ops, sync) => d.st.lastSequence + |ops| < MAX_SEQUENCE
       case Quiet(s) => IsQuiet(s) && Enabled(d.st, s)
       case SwitchLog(n) => d.st.imm.None? && forall l :: l in d.logs ==> l < n
       case Build(f) => f.number !in d.st.used
       case FlushTable(file, place) =>
         && MayFlush(d.st, file, place)
            && (file.Some? ==> file.value.number in d.tables && d.tables[file.value.number] == file.value)
       case MoveTable(f, level) => Enabled(d.st, Move(f, level))
       case InstallTables(input, outs) => MayInstall(d.st, input, outs) && forall o :: o in outs ==>
         o.number in d.tables && d.tables[o.number] == o
       case Collect(pinned) => true
       case CrashAndOpen(c, o) => CrashOk(d, c) && Openable(Left(d, c), o)
  }

  function Numbers(v: Version): set<nat> {
    set i, f | 0 <= i < |v| && f in v[i] :: f.number
  }

  function NumbersOf(fs: seq<FileMeta>): set<nat> {
    set f | f in fs :: f.number
  }

  /** RemoveObsoleteFiles: logs before the one in the manifest, and tables that are neither in a
      version in use nor being built. */
  function Collected(d: Db, pinned: set<nat>): Db {
    var live := Numbers(d.st.version) + d.pending + pinned;
    d.(logs := map n | n in d.logs && n >= d.manifestLog :: d.logs[n],
       tables := map n | n in d.tables && n in live :: d.tables[n])
  }

  /** The edit of a flush; without a table it only moves the log number on. */
  function FlushedEdit(file: Option<FileMeta>, place: nat): FileEdit {
    if file.None? then FileEdit({}, []) else FlushEdit(file.value, place)
  }

  function Logging(m: seq<Record>, edit: FileEdit, log: nat, last: nat): seq<Record> {
    m + [Record(BareEdit(edit), Some(log), Some(last))]
  }

  /** No reads are promised below the last write that is in tables. */
  function FloorAfter(d: Db): nat
    requires d.flushed <= |d.batches|
  {
    var last := LastOf(d.batches[..d.flushed]);
    if d.st.floor < last then d.st.floor else last
  }

  /** The database that an open brings up: everything that the program uses comes from the disk. */
  ghost function Reopened(k: Disk, o: Opening, flushed: seq<Batch>, floor: nat): Db
    requires Openable(k, o)
  {
    var r, all := Open(k, o), flushed + Records(k, o.newLog);
    Db(State([], None, r.version, r.lastSequence, [], None, Writes(all), floor, r.used), all, |all|, |all|,
       r.disk.logs, o.newLog, o.newLog, o.newLog, r.lastSequence, r.disk.tables, {}, r.disk.manifest)
  }

  ghost function InstalledDb(d: Db, outs: seq<FileMeta>): Db
    requires d.st.job.Some? && |d.st.version| == NUM_LEVELS
  {
    var j := d.st.job.value;
    d.(st := InstallNext(d.st, outs), manifestLast := d.st.lastSequence, pending := d.pending - NumbersOf(outs),
       manifest := Logging(d.manifest, InstallEdit(j.level, j.in0, j.in1, outs), d.manifestLog, d.st.lastSequence))
  }

  ghost function DbNext(d: Db, step: DbStep): Db
    requires DbEnabled(d, step)
  {
    match step
    case Append(ops, sync) =>
      var b, log := Batch(d.st.lastSequence + 1, ops, sync), d.logs[d.currentLog];
      d.(st := WriteBatch(d.st, ops), batches := d.batches + [b],
         logs := d.logs[d.currentLog := LogFile(log.batches + [b], if sync then |log.batches| + 1 else log.synced)])
    case Quiet(s) => d.(st := Engine.Next(d.st, s))
    case SwitchLog(n) =>
      d.(st := d.st.(mem := [], imm := Some(d.st.mem)), rotated := |d.batches|, logs := d.logs[n := LogFile([], 0)],
         oldLog := d.currentLog, currentLog := n)
    case Build(f) => d.(tables := d.tables[f.number := f], pending := d.pending + {f.number})
    case FlushTable(file, place) =>
      d.(st := FlushNext(d.st, file, place), flushed := d.rotated, manifestLog := d.currentLog,
        manifestLast := d.st.lastSequence,
         pending := d.pending - (if file.Some? then {file.value.number} else {}),
         manifest := Logging(d.manifest, FlushedEdit(file, place), d.currentLog, d.st.lastSequence))
    case MoveTable(f, level) =>
      d.(st := Engine.Next(d.st, Move(f, level)), manifestLast := d.st.lastSequence,
         manifest := Logging(d.manifest, MoveEdit(f, level), d.manifestLog, d.st.lastSequence))
    case InstallTables(input, outs) => InstalledDb(d, outs)
    case Collect(pinned) => Collected(d, pinned)
    case CrashAndOpen(c, o) => Reopened(Left(d, c), o, d.batches[..d.flushed], FloorAfter(d))
  }

  // ----- every step keeps the invariant -----

  lemma AppendKeeps(d: Db, ops: seq<Op>, sync: bool)
    requires DbInv(d) && DbEnabled(d, Append(ops, sync))
    ensures DbInv(DbNext(d, Append(ops, sync)))
  {
    hide Inv, WriteBatch, TablesFaithful, Present, Batched, Logged, Enabled, Manifested;
    var b, d' := Batch(d.st.lastSequence + 1, ops, sync), DbNext(d, Append(ops, sync));
    BatchWritten(d.st, ops);
    AppendBatched(d, d', b);
    AppendLogged(d, d', b);
    assert d'.batches[..d.flushed] == d.batches[..d.flushed];
  }

  lemma AppendBatched(d: Db, d': Db, b: Batch)
    requires Batched(d) && b.first == d.st.lastSequence + 1 && d.st.lastSequence + |b.ops| < MAX_SEQUENCE
    requires d' == d.(st := d'.st, batches := d.batches + [b], logs := d'.logs)
    requires d'.st.history == d.st.history + StampFrom(b.ops, b.first)
             && Elements(d'.st.mem) == Elements(d.st.mem) + Elements(StampFrom(b.ops, b.first))
    requires d'.st == d.st.(mem := d'.st.mem, history := d'.st.history, lastSequence := d.st.lastSequence + |b.ops|)
    ensures Batched(d')
  {
    hide StampFrom, Follow, Elements, Writes;
    FollowMore(d.batches, b, d.st.lastSequence);
    WritesSnoc(d.batches, b);
    WritesSnoc(d.batches[d.rotated..], b);
    assert d'.batches[d.rotated..] == d.batches[d.rotated..] + [b];
    assert d'.batches[d.flushed..d.rotated] == d.batches[d.flushed..d.rotated];
    ElementsConcat(Writes(d.batches[d.rotated..]), StampFrom(b.ops, b.first));
  }

  lemma AppendLogged(d: Db, d': Db, b: Batch)
    requires Logged(d) && d' == d.(st := d'.st, batches := d.batches + [b], logs := d'.logs) && d'.st.imm == d.st.imm
    requires d.currentLog in d.logs
    requires var log := d.logs[d.currentLog];
             d'.logs == d.logs[d.currentLog := LogFile(log.batches + [b], if b.sync then |log.batches| + 1
               else log.synced)]
    ensures Logged(d')
  {
    assert d'.batches[d.rotated..] == d.batches[d.rotated..] + [b];
    assert d'.batches[d.flushed..d.rotated] == d.batches[d.flushed..d.rotated];
  }

  lemma QuietShape(st: State, step: Step)
    requires IsQuiet(step) && Enabled(st, step)
    ensures var r := Engine.Next(st, step);
            r == st.(lastSequence := r.lastSequence, job := r.job, snapshots := r.snapshots)
              && r.lastSequence >= st.lastSequence
  {}

  lemma QuietKeeps(d: Db, step: Step)
    requires DbInv(d) && DbEnabled(d, Quiet(step))
    ensures DbInv(DbNext(d, Quiet(step)))
  {
    hide Inv, TablesFaithful, Present, Enabled, Engine.Next, Manifested;
    StepKeepsInv(d.st, step);
    QuietShape(d.st, step);
    SameFiles(d, DbNext(d, Quiet(step)));
  }

  lemma SameFiles(d: Db, d': Db)
    requires Batched(d) && Logged(d)
    requires d' == d.(st := d'.st, manifestLast := d'.manifestLast, manifest := d'.manifest)
    requires d'.st.mem == d.st.mem && d'.st.imm == d.st.imm && d'.st.history == d.st.history
             && d'.st.lastSequence >= d.st.lastSequence
    ensures Batched(d') && Logged(d')
  {}

  lemma SwitchKeeps(d: Db, n: nat)
    requires DbInv(d) && DbEnabled(d, SwitchLog(n))
    ensures DbInv(DbNext(d, SwitchLog(n)))
  {
    hide Inv, TablesFaithful, Present, Manifested;
    var d' := DbNext(d, SwitchLog(n));
    RotateKeepsInv(d.st);
    assert d'.batches[d'.rotated..] == [] && d'.batches[d'.flushed..d'.rotated] == d.batches[d.rotated..];
    SwitchBatched(d, d');
  }

  lemma SwitchBatched(d: Db, d': Db)
    requires Batched(d) && d.st.imm.None? && d'.batches == d.batches && d'.rotated == |d.batches|
             && d'.flushed == d.flushed
    requires d'.st == d.st.(mem := [], imm := Some(d.st.mem))
    ensures Batched(d')
  {
    hide Writes, Follow;
    assert d'.batches[d'.rotated..] == [] && d'.batches[d'.flushed..d'.rotated] == d.batches[d.rotated..];
    NoWrites();
  }

  lemma BuildKeeps(d: Db, f: FileMeta)
    requires DbInv(d) && DbEnabled(d, Build(f))
    ensures DbInv(DbNext(d, Build(f)))
  {
    hide Inv, TablesFaithful, Batched, Logged, NumbersUsed, Layered, SortedVersion, ValidVersion, Manifested;
    NumbersPart(d.st);
    BuiltElsewhere(d.st, d.tables, f);
    SameBatches(d, DbNext(d, Build(f)));
    SameLogs(d, DbNext(d, Build(f)));
  }

  lemma BuiltElsewhere(st: State, tables: map<nat, FileMeta>, f: FileMeta)
    requires NumbersUsed(st) && f.number !in st.used && Present(st.version, tables)
    ensures Present(st.version, tables[f.number := f])
  {}

  lemma SameBatches(d: Db, d': Db)
    requires Batched(d) && d'.st == d.st && d'.batches == d.batches && d'.flushed == d.flushed
             && d'.rotated == d.rotated
    ensures Batched(d')
  {}

  lemma SameLogs(d: Db, d': Db)
    requires Logged(d) && d' == d.(tables := d'.tables, pending := d'.pending)
    ensures Logged(d')
  {}

  lemma NumbersPart(st: State)
    requires Inv(st)
    ensures NumbersUsed(st) && SortedVersion(st.version) && ValidVersion(st.version) && Layered(st)
  {}

  lemma CollectKeeps(d: Db, pinned: set<nat>)
    requires DbInv(d) && DbEnabled(d, Collect(pinned))
    ensures DbInv(DbNext(d, Collect(pinned)))
  {
    hide Inv, TablesFaithful, Batched, Manifested;
    SameBatches(d, Collected(d, pinned));
    assert forall i, f :: 0 <= i < |d.st.version| && f in d.st.version[i] ==> f.number in Numbers(d.st.version);
  }

  /** The flushed batches and the immutable memtable next to them. */
  lemma FlushedAndFrozen(d: Db)
    requires Inv(d.st) && Batched(d)
    ensures var F, I := Elements(Writes(d.batches[..d.flushed])), Elements(Immutable(d.st));
            && UniqueVersions(EntriesOf(d.st.version) + I) && UniqueVersions(F + I)
            && SetNewer(I, EntriesOf(d.st.version)) && SetNewer(I, F)
            && Elements(Writes(d.batches[..d.rotated])) == F + I
  {
    hide Layered, Faithful, SnapshotsOk, NumbersUsed, JobOk, StampFrom, Follow, EntriesOf, Writes;
    var a, b := d.batches[..d.flushed], d.batches[d.flushed..d.rotated];
    ThreeParts(d);
    LayeredNewer(d.st);
    StoredUnique(d.st);
    HistoryUnique(d.st.history);
    assert d.batches[..d.rotated] == a + b;
    WritesConcat(a, b);
    ElementsConcat(Writes(a), Writes(b));
    assert d.batches == (a + b) + d.batches[d.rotated..];
    FollowParts(a + b, d.batches[d.rotated..], 0);
    forall x, e | x in Elements(Immutable(d.st)) && e in Elements(Writes(a)) ensures x.key.sequence > e.key.sequence {
      WritesOrdered(a, b, e, x);
    }
  }

  lemma FlushFaithful(d: Db, w: Version)
    requires Inv(d.st) && Batched(d) && TablesFaithful(d.st.version, Writes(d.batches[..d.flushed]), d.st.floor)
    requires EntriesOf(w) == EntriesOf(d.st.version) + Elements(Immutable(d.st))
             && d.flushed <= d.rotated <= |d.batches|
    ensures TablesFaithful(w, Writes(d.batches[..d.rotated]), d.st.floor)
  {
    hide Inv, Batched, Writes, EntriesOf, UniqueVersions, SetNewer, Elements;
    FlushedAndFrozen(d);
    var T, F, I := EntriesOf(d.st.version), Elements(Writes(d.batches[..d.flushed])), Elements(Immutable(d.st));
    forall u, s: nat | d.st.floor <= s
      ensures Read(EntriesOf(w), u, s) == Read(Elements(Writes(d.batches[..d.rotated])), u, s) {
      assert Read(T, u, s) == Read(F, u, s);
      LayerRead(T, F, I, u, s);
    }
  }

  /** What a flush does to the version and to the files. */
  lemma FlushedVersion(st: State, file: Option<FileMeta>, place: nat, tables: map<nat, FileMeta>)
    requires Inv(st) && |st.version| == NUM_LEVELS && MayFlush(st, file, place) && Present(st.version, tables)
    requires file.Some? ==> file.value.number in tables && tables[file.value.number] == file.value
    ensures var r := FlushNext(st, file, place);
            EntriesOf(r.version) == EntriesOf(st.version) + Elements(Immutable(st)) && Present(r.version, tables)
  {
    hide Recorded, Faithful, SnapshotsOk, JobOk, ValidVersion, EntriesOf, NewerThanVersion, Newer, ValidFile;
    if file.Some? {
      FlushFile(st, FlushNext(st, file, place), file.value, place);
      FlushMembers(st.version, file.value, place);
    } else {
      NoElements(EntriesOf(st.version));
    }
  }

  lemma FlushKeeps(d: Db, file: Option<FileMeta>, place: nat)
    requires DbInv(d) && DbEnabled(d, FlushTable(file, place))
    ensures DbInv(DbNext(d, FlushTable(file, place)))
  {
    hide Inv, TablesFaithful, Present, Batched, Logged, Registered, EntriesOf, MayFlush;
    var d' := DbNext(d, FlushTable(file, place));
    FlushRegistered(d, file, place);
    FlushedBelow(d);
    FlushShape(d.st, file, place);
    FlushKeepsInv(d.st, file, place);
    FlushedVersion(d.st, file, place, d.tables);
    FlushFaithful(d, d'.st.version);
    FlushFiles(d, d');
  }

  lemma EditedNothing(v: Version)
    requires |v| == NUM_LEVELS && SortedVersion(v)
    ensures Edited(v, FileEdit({}, [])) == v
  {
    var e := FileEdit({}, []);
    forall l | 0 <= l < NUM_LEVELS ensures Edited(v, e)[l] == v[l] {
      EditedMembers(v, e, l);
      SortedFilesUnique(Edited(v, e)[l], v[l]);
    }
  }

  /** The version and the numbers after a flush, in terms of its edit. */
  lemma FlushEdits(st: State, file: Option<FileMeta>, place: nat)
    requires |st.version| == NUM_LEVELS && SortedVersion(st.version) && NumbersUsed(st) && MayFlush(st, file, place)
    ensures var r, e := FlushNext(st, file, place), FlushedEdit(file, place);
            && r.version == Edited(st.version, e) && r.used == st.used + AddedNumbers(e) && NewTables(e, st.used)
            && forall l, g :: 0 <= l < NUM_LEVELS && g in Edited(st.version, e)[l] ==>
               g in st.version[l] || AddedAt(e.added, l, g)
  {
    hide ValidFile, SortedVersion, FreshNumber, Edited, Clear;
    var e := FlushedEdit(file, place);
    if file.Some? {
      FlushMembers(st.version, file.value, place);
      assert e.added[0] == (place, file.value);
      assert AddedNumbers(e) == {file.value.number};
    } else {
      EditedNothing(st.version);
      assert AddedNumbers(e) == {};
    }
  }

  lemma LoggedRecord(m: seq<Record>, edit: FileEdit, log: nat, last: nat)
    ensures var r := Logging(m, edit, log, last);
            Edits(r) == Edits(m) + [BareEdit(edit)] && NamedLog(r) == Some(log) && NamedLast(r) == Some(last)
  {
    EditsSnoc(m, Record(BareEdit(edit), Some(log), Some(last)));
  }

  lemma FlushRegistered(d: Db, file: Option<FileMeta>, place: nat)
    requires Inv(d.st) && Registered(d) && DbEnabled(d, FlushTable(file, place))
    ensures Registered(DbNext(d, FlushTable(file, place)))
  {
    hide Manifested, MayFlush, FlushNext, FlushedEdit, NewTables, NumbersUsed, ValidVersion, Logging;
    NumbersPart(d.st);
    VersionNumbers(d.st);
    FlushEdits(d.st, file, place);
    LoggedRecord(d.manifest, FlushedEdit(file, place), d.currentLog, d.st.lastSequence);
    LogNewTables(Edits(d.manifest), d.st.version, d.st.used, FlushedEdit(file, place));
  }

  lemma VersionNumbers(st: State)
    requires NumbersUsed(st)
    ensures forall l, g :: 0 <= l < |st.version| && g in st.version[l] ==> g.number in st.used
  {}

  lemma MoveRegistered(d: Db, f: FileMeta, level: nat)
    requires Inv(d.st) && Registered(d) && DbEnabled(d, MoveTable(f, level))
    ensures Registered(DbNext(d, MoveTable(f, level)))
  {
    hide Manifested, NumbersUsed, ValidVersion, SortedVersion, Logging;
    NumbersPart(d.st);
    MovedIsThere(d.st.version, f, level);
    LoggedRecord(d.manifest, MoveEdit(f, level), d.manifestLog, d.st.lastSequence);
    LogMove(Edits(d.manifest), d.st.version, d.st.used, f, level);
  }

  /** The edit of a merge adds its outputs under new numbers. */
  lemma InstallEdits(st: State, input: seq<Entry>, outs: seq<FileMeta>)
    requires Inv(st) && |st.version| == NUM_LEVELS && MayInstall(st, input, outs)
    ensures var j, r := st.job.value, InstallNext(st, outs);
            var e := InstallEdit(j.level, j.in0, j.in1, outs);
            && r.version == Edited(st.version, e) && r.used == st.used + AddedNumbers(e) && NewTables(e, st.used)
            && forall l, g :: 0 <= l < NUM_LEVELS && g in Edited(st.version, e)[l] ==>
               g in st.version[l] || AddedAt(e.added, l, g)
  {
    hide Inv, Merged, Fits, Edited, AfterInstall, ValidFile;
    var j := st.job.value;
    var e := InstallEdit(j.level, j.in0, j.in1, outs);
    InstalledMembers(st, input, outs);
    AtMembers(j.level + 1, outs);
    OutputNumbers(e, j.level + 1, outs);
    forall l: nat, g | l < NUM_LEVELS && g in Edited(st.version, e)[l]
      ensures g in st.version[l] || AddedAt(e.added, l, g) {
      InstalledFrom(st.version, j.level, j.in0, j.in1, outs, l, g);
    }
  }

  lemma OutputNumbers(e: FileEdit, level: nat, outs: seq<FileMeta>)
    requires |e.added| == |outs| && forall i :: 0 <= i < |outs| ==> e.added[i] == (level, outs[i])
    ensures AddedNumbers(e) == set o | o in outs :: o.number
  {
    forall o | o in outs ensures o.number in AddedNumbers(e) {
      var i :| 0 <= i < |outs| && outs[i] == o;
      assert e.added[i].1.number == o.number;
    }
  }

  lemma InstalledFrom(v: Version, level: nat, in0: seq<FileMeta>, in1: seq<FileMeta>, outs: seq<FileMeta>, l: nat,
                      g: FileMeta)
    requires AfterInstall(v, level, in0, in1, outs, l, g)
    ensures l < |v| && (g in v[l] || AddedAt(InstallEdit(level, in0, in1, outs).added, l, g))
  {
    AtMembers(level + 1, outs);
    if g !in v[l] {
      var i :| 0 <= i < |outs| && outs[i] == g;
      assert At(level + 1, outs)[i] == (l, g);
    }
  }

  lemma InstallRegistered(d: Db, input: seq<Entry>, outs: seq<FileMeta>)
    requires Inv(d.st) && Registered(d) && DbEnabled(d, InstallTables(input, outs))
    ensures Registered(DbNext(d, InstallTables(input, outs)))
  {
    hide Manifested, Inv, MayInstall, InstallNext, NewTables, NumbersUsed, Logging, InstallEdit;
    NumbersPart(d.st);
    VersionNumbers(d.st);
    InstallShape(d.st, input, outs);
    InstallEdits(d.st, input, outs);
    var j := d.st.job.value;
    var e := InstallEdit(j.level, j.in0, j.in1, outs);
    LoggedRecord(d.manifest, e, d.manifestLog, d.st.lastSequence);
    LogNewTables(Edits(d.manifest), d.st.version, d.st.used, e);
  }

  lemma LastOfPrefix(bs: seq<Batch>, n: nat)
    requires Follow(bs, 0) && n <= |bs|
    ensures LastOf(bs[..n]) <= LastOf(bs)
  {
    if 0 < n < |bs| { assert bs[n-1].Next() <= bs[|bs|-1].first; }
  }

  lemma FlushedBelow(d: Db)
    requires Batched(d)
    ensures d.flushed <= d.rotated <= |d.batches| && LastOf(d.batches[..d.rotated]) <= d.st.lastSequence
  {
    LastOfPrefix(d.batches, d.rotated);
  }

  lemma FlushShape(st: State, file: Option<FileMeta>, place: nat)
    requires |st.version| == NUM_LEVELS && MayFlush(st, file, place)
    ensures var r := FlushNext(st, file, place);
            r == st.(imm := None, version := r.version, used := r.used) && st.imm.Some?
  {}

  lemma FlushFiles(d: Db, d': Db)
    requires Batched(d) && Logged(d) && d.st.imm.Some?
    requires d' == d.(st := d'.st, flushed := d.rotated, manifestLog := d.currentLog, manifestLast := d'.manifestLast,
             pending := d'.pending, manifest := d'.manifest)
    requires d'.st == d.st.(imm := None, version := d'.st.version, used := d'.st.used)
    ensures Batched(d') && Logged(d')
  {
    hide Writes, Follow;
    assert d'.batches[d'.flushed..d'.rotated] == [];
    NoWrites();
  }

  lemma MoveKeeps(d: Db, f: FileMeta, level: nat)
    requires DbInv(d) && DbEnabled(d, MoveTable(f, level))
    ensures DbInv(DbNext(d, MoveTable(f, level)))
  {
    hide Inv, Present, Batched, Logged, Registered, EntriesOf, Enabled;
    var d' := DbNext(d, MoveTable(f, level));
    MoveRegistered(d, f, level);
    StepKeepsInv(d.st, Move(f, level));
    MovedVersion(d.st, f, level, d.tables);
    SameFiles(d, d');
  }

  lemma MovedVersion(st: State, f: FileMeta, level: nat, tables: map<nat, FileMeta>)
    requires Inv(st) && Enabled(st, Move(f, level)) && Present(st.version, tables)
    ensures var r := Engine.Next(st, Move(f, level));
            && r == st.(version := r.version) && EntriesOf(r.version) == EntriesOf(st.version)
               && Present(r.version, tables)
  {
    hide Recorded, Faithful, SnapshotsOk, JobOk, ValidVersion, EntriesOf, Newer, Legal;
    StoredIsUnique(st);
    MoveFile(st, f, level);
    MovedIsThere(st.version, f, level);
    MoveMembers(st.version, f, level);
  }

  lemma StoredIsUnique(st: State)
    requires Inv(st)
    ensures UniqueVersions(EntriesOf(st.version)) && UniqueVersions(Stored(st))
  {
    StoredUnique(st);
  }

  lemma InstallKeeps(d: Db, input: seq<Entry>, outs: seq<FileMeta>)
    requires DbInv(d) && DbEnabled(d, InstallTables(input, outs))
    ensures DbInv(DbNext(d, InstallTables(input, outs)))
  {
    hide Inv, Present, Batched, Logged, Registered, EntriesOf, MayInstall, TablesFaithful;
    var d' := DbNext(d, InstallTables(input, outs));
    InstallRegistered(d, input, outs);
    InstallKeepsInv(d.st, input, outs);
    InstallShape(d.st, input, outs);
    InstalledTables(d.st, input, outs, d.tables);
    InstalledFaithful(d.st, input, outs, Writes(d.batches[..d.flushed]));
    SameFilesAfter(d, d');
  }

  lemma SameFilesAfter(d: Db, d': Db)
    requires Batched(d) && Logged(d)
    requires d' == d.(st := d'.st, manifestLast := d'.manifestLast, pending := d'.pending, manifest := d'.manifest)
    requires d'.st.mem == d.st.mem && d'.st.imm == d.st.imm && d'.st.history == d.st.history
             && d'.st.lastSequence == d.st.lastSequence
    ensures Batched(d') && Logged(d')
  {}

  lemma InstallShape(st: State, input: seq<Entry>, outs: seq<FileMeta>)
    requires |st.version| == NUM_LEVELS && MayInstall(st, input, outs)
    ensures st.job.Some?
    ensures var r := InstallNext(st, outs);
            && r.mem == st.mem && r.imm == st.imm && r.history == st.history && r.lastSequence == st.lastSequence
            && r.floor >= st.floor && r.floor >= st.job.value.snapshot
  {}

  /** The members of the version after a merge. */
  lemma InstalledMembers(st: State, input: seq<Entry>, outs: seq<FileMeta>)
    requires Inv(st) && |st.version| == NUM_LEVELS && MayInstall(st, input, outs)
    ensures var j, w := st.job.value, InstallNext(st, outs).version;
            |w| == NUM_LEVELS && forall l: nat, g :: l < NUM_LEVELS ==>
              (g in w[l] <==> AfterInstall(st.version, j.level, j.in0, j.in1, outs, l, g))
  {
    hide Recorded, Faithful, SnapshotsOk, NumbersUsed, Merged, Mergeable, BaseStays, Fits, NewNumbers, LegalLower,
         Connected, OutputFiles, ValidVersion, SortedVersion;
    var j := st.job.value;
    JobOutputs(st, input, outs);
    InstallMembers(st.version, j.level, j.in0, j.in1, outs);
  }

  lemma InstalledTables(st: State, input: seq<Entry>, outs: seq<FileMeta>, tables: map<nat, FileMeta>)
    requires Inv(st) && |st.version| == NUM_LEVELS && MayInstall(st, input, outs) && Present(st.version, tables)
    requires forall o :: o in outs ==> o.number in tables && tables[o.number] == o
    ensures Present(InstallNext(st, outs).version, tables)
  {
    hide Inv, MayInstall, InstallNext, IsInput;
    InstallShape(st, input, outs);
    InstalledMembers(st, input, outs);
    var w := InstallNext(st, outs).version;
    forall i: nat, f: FileMeta | i < |w| && f in w[i] ensures f.number in tables && tables[f.number] == f {
      assert AfterInstall(st.version, st.job.value.level, st.job.value.in0, st.job.value.in1, outs, i, f);
    }
  }

  lemma InstalledFaithful(st: State, input: seq<Entry>, outs: seq<FileMeta>, h: seq<Entry>)
    requires Inv(st) && |st.version| == NUM_LEVELS && MayInstall(st, input, outs)
             && TablesFaithful(st.version, h, st.floor)
    ensures TablesFaithful(InstallNext(st, outs).version, h, InstallNext(st, outs).floor)
  {
    hide Inv, MayInstall, InstallNext, EntriesOf;
    InstallShape(st, input, outs);
    var r := InstallNext(st, outs);
    forall u, s: nat | r.floor <= s ensures Read(EntriesOf(r.version), u, s) == Read(Elements(h), u, s) {
      InstalledRead(st, input, outs, u, s);
      assert Read(EntriesOf(st.version), u, s) == Read(Elements(h), u, s);
    }
  }

  lemma InstalledRead(st: State, input: seq<Entry>, outs: seq<FileMeta>, u: UserKey, s: nat)
    requires Inv(st) && |st.version| == NUM_LEVELS && MayInstall(st, input, outs) && st.job.value.snapshot <= s
    ensures Read(EntriesOf(InstallNext(st, outs).version), u, s) == Read(EntriesOf(st.version), u, s)
  {
    hide Layered, Recorded, Faithful, SnapshotsOk, NumbersUsed, Merged, Mergeable, BaseStays, Fits, NewNumbers,
         LegalLower, Connected, EntriesOf, AfterInstall, UniqueVersions, InstallNext;
    var j, w := st.job.value, InstallNext(st, outs).version;
    InstalledMembers(st, input, outs);
    StoredIsUnique(st);
    NumbersPart(st);
    NothingAbove(EntriesOf(w));
    NothingAbove(EntriesOf(st.version));
    InstallIsInvisible(st.version, w, j.level, j.in0, j.in1, input, outs, j.snapshot, j.inputVersion, {}, u, s);
  }

  // ----- opening after a crash -----

  /** What recovery starts from, with the history that its tables stand for. */
  ghost function Base(d: Db): State
    requires d.flushed <= |d.batches|
  {
    State([], None, d.st.version, LastOf(d.batches[..d.flushed]), [], None, Writes(d.batches[..d.flushed]),
      FloorAfter(d),
          set p | p in Entered(Edits(d.manifest)) :: p.1)
  }

  lemma BaseAtRest(d: Db)
    requires DbInv(d)
    ensures AtRest(Base(d))
  {
    hide Faithful, SnapshotsOk, NumbersUsed, JobOk, ValidVersion, SortedVersion, EntriesOf, Logged, Present, Follow,
         Writes;
    var b := Base(d);
    BaseRecorded(d);
    BaseFaithful(d);
    NewerThanEmpty(b.version, []);
    BaseSnapshots(d);
  }

  lemma EnteredNumbers(d: Db)
    requires Registered(d)
    ensures forall l: nat, g :: l < |d.st.version| && g in d.st.version[l] ==>
            (l, g.number) in Entered(Edits(d.manifest))
  {
    hide Manifested;
    ManifestLength(d);
    forall l: nat, g | l < |d.st.version| && g in d.st.version[l] ensures (l, g.number) in Entered(Edits(d.manifest)) {
      NumberWasUsed(Edits(d.manifest), d.st.version, d.st.used, g, l);
    }
  }

  lemma ManifestLength(d: Db)
    requires Registered(d)
    ensures |d.st.version| == NUM_LEVELS
  {}

  lemma BaseSnapshots(d: Db)
    requires Registered(d) && d.flushed <= |d.batches|
    ensures SnapshotsOk(Base(d)) && NumbersUsed(Base(d))
  {
    hide Registered;
    EnteredNumbers(d);
    forall l, g | 0 <= l < |d.st.version| && g in d.st.version[l] ensures g.number in Base(d).used {
      assert (l, g.number) in Entered(Edits(d.manifest));
    }
  }

  lemma BaseRecorded(d: Db)
    requires Inv(d.st) && Batched(d)
    ensures Recorded(Base(d)) && Stored(Base(d)) == EntriesOf(d.st.version)
  {
    hide Inv, EntriesOf, Writes, Batched, IsHistory, LastOf;
    TablesHoldFlushed(d);
    FlushedHistory(d);
    assert InMemory(Base(d)) == {};
  }

  lemma FlushedHistory(d: Db)
    requires Inv(d.st) && Batched(d)
    ensures d.flushed <= |d.batches|
    ensures var a := d.batches[..d.flushed];
            IsHistory(Writes(a)) && LastOf(a) < MAX_SEQUENCE && forall e :: e in Writes(a) ==>
              e.key.sequence <= LastOf(a)
  {
    hide Layered, Faithful, SnapshotsOk, NumbersUsed, JobOk, Writes, IsHistory, Follow, Stored;
    var a, rest := d.batches[..d.flushed], d.batches[d.flushed..];
    assert d.batches == a + rest;
    WritesConcat(a, rest);
    FollowParts(a, rest, 0);
    LastOfPrefix(d.batches, d.flushed);
    PrefixHistory(Writes(a), Writes(rest));
    forall e | e in Writes(a) ensures e.key.sequence <= LastOf(a) { WritesBelow(a, e); }
  }

  lemma BaseFaithful(d: Db)
    requires Inv(d.st) && Batched(d) && d.flushed <= |d.batches|
    requires TablesFaithful(d.st.version, Writes(d.batches[..d.flushed]), d.st.floor)
    ensures Faithful(Base(d))
  {
    hide Inv, Batched, EntriesOf, Writes, Elements, LastOf;
    BaseRecorded(d);
    StoredIsUnique(d.st);
    var b := Base(d);
    BaseBelow(d);
    var T, F := EntriesOf(d.st.version), Elements(Writes(d.batches[..d.flushed]));
    forall u, s: nat | b.floor <= s ensures Read(Stored(b), u, s) == Read(Elements(b.history), u, s) {
      if s < d.st.floor {
        ReadBeyond(T, u, s, d.st.floor);
        ReadBeyond(F, u, s, d.st.floor);
        assert Read(T, u, d.st.floor) == Read(F, u, d.st.floor);
      } else {
        assert Read(T, u, s) == Read(F, u, s);
      }
    }
  }

  lemma BaseBelow(d: Db)
    requires Inv(d.st) && Batched(d)
    ensures d.flushed <= |d.batches|
    ensures var T, F := EntriesOf(d.st.version), Elements(Writes(d.batches[..d.flushed]));
            UniqueVersions(F) && forall e :: e in T || e in F ==> e.key.sequence <= LastOf(d.batches[..d.flushed])
  {
    hide Inv, Writes, EntriesOf;
    BaseRecorded(d);
    HistoryUnique(Base(d).history);
  }

  // What the logs keep, in terms of the batches.

  function KeptOld(d: Db, c: Crash): nat { if d.st.imm.Some? && d.oldLog in c.kept then c.kept[d.oldLog] else 0 }

  function KeptNew(d: Db, c: Crash): nat { if d.currentLog in c.kept then c.kept[d.currentLog] else 0 }

  function Surviving(d: Db, c: Crash): seq<Batch>
    requires d.flushed + KeptOld(d, c) <= d.rotated && d.rotated + KeptNew(d, c) <= |d.batches|
  {
    d.batches[d.flushed..d.flushed + KeptOld(d, c)] + (d.batches[d.rotated..d.rotated + KeptNew(d, c)] + c.inflight)
  }

  lemma KeptWithin(d: Db, c: Crash)
    requires Batched(d) && Logged(d) && CrashOk(d, c)
    ensures d.flushed + KeptOld(d, c) <= d.rotated && d.rotated + KeptNew(d, c) <= |d.batches|
  {}

  /** What each log has after the crash. */
  lemma LogsLeft(d: Db, c: Crash)
    requires Batched(d) && Logged(d) && CrashOk(d, c)
    ensures d.flushed + KeptOld(d, c) <= d.rotated && d.rotated + KeptNew(d, c) <= |d.batches|
    ensures var logs := Left(d, c).logs;
            && logs.Keys == d.logs.Keys && d.currentLog in logs && d.manifestLog <= d.currentLog
            && logs[d.currentLog].batches == d.batches[d.rotated..d.rotated + KeptNew(d, c)] + c.inflight
            && (d.st.imm.Some? ==> d.oldLog in logs && d.manifestLog <= d.oldLog < d.currentLog
                                   && logs[d.oldLog].batches == d.batches[d.flushed..d.flushed + KeptOld(d, c)])
            && (forall n ::
                n in logs && n >= d.manifestLog && n != d.currentLog && !(d.st.imm.Some? && n == d.oldLog) ==>
                logs[n].batches == [])
  {
    hide Follow, Writes, Elements;
    KeptWithin(d, c);
    var a, b := d.batches[d.flushed..d.rotated], d.batches[d.rotated..];
    assert b[..KeptNew(d, c)] == d.batches[d.rotated..d.rotated + KeptNew(d, c)];
    assert a[..KeptOld(d, c)] == d.batches[d.flushed..d.flushed + KeptOld(d, c)];
  }

  /** Reading the logs from the one in the manifest on, in the order of their numbers, gives what
      survived: of the flushed memtable's log and of the current one. */
  lemma RecordsSurvive(d: Db, c: Crash, to: nat)
    requires Batched(d) && Logged(d) && CrashOk(d, c)
    requires forall n :: n in d.logs && d.manifestLog <= n ==> n < to
    ensures d.flushed + KeptOld(d, c) <= d.rotated && d.rotated + KeptNew(d, c) <= |d.batches|
    ensures RecordsFrom(Left(d, c).logs, d.manifestLog, to) == Surviving(d, c)
  {
    hide Batched, Logged, CrashOk, Left, RecordsFrom;
    LogsLeft(d, c);
    var logs := Left(d, c).logs;
    assert d.batches[d.flushed..d.flushed] == [];
    if d.st.imm.Some? {
      TwoLogs(logs, d.manifestLog, d.oldLog, d.currentLog, to);
    } else {
      OneLog(logs, d.manifestLog, d.currentLog, to);
    }
  }

  /** The surviving batches, with what was lost between them. */
  lemma SurvivorsFollow(d: Db, c: Crash)
    requires Batched(d) && Logged(d) && CrashOk(d, c)
    ensures d.flushed + KeptOld(d, c) <= d.rotated && d.rotated + KeptNew(d, c) <= |d.batches|
    ensures Follow(d.batches[..d.flushed] + Surviving(d, c), 0)
    ensures d.batches[..d.flushed] + Surviving(d, c)
         == d.batches[..d.flushed + KeptOld(d, c)] + (d.batches[d.rotated..d.rotated + KeptNew(d, c)] + c.inflight)
  {
    hide Follow, Writes, Logged, KeptOld, KeptNew;
    KeptWithin(d, c);
    FollowInflight(d.batches, c.inflight, d.st.lastSequence);
    TwoStretches(d.batches, d.flushed, d.flushed + KeptOld(d, c), d.rotated, d.rotated + KeptNew(d, c), c.inflight);
  }

  /** Two stretches may be missing. */
  lemma TwoStretches(bs: seq<Batch>, start: nat, f: nat, rotated: nat, r: nat, more: seq<Batch>)
    requires start <= f <= rotated <= r <= |bs| && Follow(bs + more, 0)
    ensures Follow(bs[..f] + (bs[rotated..r] + more), 0)
    ensures bs[..start] + (bs[start..f] + (bs[rotated..r] + more)) == bs[..f] + (bs[rotated..r] + more)
  {
    hide Follow;
    var a, x, b, y := bs[..f], bs[f..rotated], bs[rotated..r], bs[r..];
    assert bs + more == (a + x + b) + (y + more);
    DropMiddle(a + x + b, y, more);
    assert (a + x + b) + more == a + (x + (b + more));
    DropMiddle(a, x, b + more);
    assert bs[..start] + bs[start..f] == a;
  }

  /** The disk alone says the version, and the replay is one of the engine. */
  lemma FoundIsBase(d: Db, c: Crash)
    requires DbInv(d) && CrashOk(d, c)
    ensures TablesThere(ManifestVersion(Left(d, c)), Left(d, c).tables)
            && ManifestVersion(Left(d, c)) == BareVersion(d.st.version)
    ensures SameTables(FoundState(Left(d, c)), Base(d))
    ensures NamedLog(Left(d, c).manifest) == Some(d.manifestLog)
            && NamedLast(Left(d, c).manifest) == Some(d.manifestLast)
  {
    hide Inv, Batched, Logged, TablesFaithful, Manifested, Present, BareVersion, Saved;
    ManifestRecovers(Edits(d.manifest), d.st.version, d.st.used, d.tables);
  }

  /** The batches after what is in tables follow those. */
  lemma SurvivorsAfter(d: Db, c: Crash)
    requires Batched(d) && Logged(d) && CrashOk(d, c)
    ensures d.flushed + KeptOld(d, c) <= d.rotated && d.rotated + KeptNew(d, c) <= |d.batches|
    ensures Follow(Surviving(d, c), LastOf(d.batches[..d.flushed]))
  {
    hide Batched, Logged, CrashOk, Writes, Surviving;
    SurvivorsFollow(d, c);
    var a, b := d.batches[..d.flushed], Surviving(d, c);
    FollowParts(a, b, 0);
    if a != [] { assert forall j :: 0 <= j < |b| ==> a[|a|-1].Next() <= b[j].first; }
  }

  /** An open replays the engine from the tables on. */
  lemma OpenReplays(d: Db, c: Crash, o: Opening)
    requires DbInv(d) && CrashOk(d, c) && Openable(Left(d, c), o)
    ensures d.flushed + KeptOld(d, c) <= d.rotated && d.rotated + KeptNew(d, c) <= |d.batches|
    ensures Records(Left(d, c), o.newLog) == Surviving(d, c) == Joined(o.chunks)
    ensures MayReplay(Base(d), o.chunks, o.files)
    ensures var r := Replayed(Base(d), o.chunks, o.files);
            && Flushed(Base(d), Surviving(d, c), r) && Present(r.version, Written(d.tables, o.files))
            && r.version == Open(Left(d, c), o).version && r.used == Open(Left(d, c), o).used
    ensures Manifested(Edits(Open(Left(d, c), o).disk.manifest), Open(Left(d, c), o).version, Open(Left(d, c), o).used)
  {
    hide Inv, Batched, Logged, TablesFaithful, Registered, Present, MayReplay, Base, FoundState, Surviving, Flushed,
         ManifestVersion, CrashOk, Follow, Edited, RecoveryEdit, NewTables;
    var k := Left(d, c);
    FoundIsBase(d, c);
    LeftShape(d, c);
    RecordsSurvive(d, c, o.newLog);
    SurvivorsAfter(d, c);
    BaseAtRest(d);
    BaseParts(d);
    ReplayLooksAtTables(FoundState(k), Base(d), o.chunks, o.files);
    ReplayOk(Base(d), o.chunks, o.files, d.tables);
    RestParts(Base(d));
    AddsTogether(Base(d), o.chunks, o.files);
    EditedSize(d.st.version, RecoveryEdit(o.files));
    NewManifest(d, k, o);
  }

  lemma LeftShape(d: Db, c: Crash)
    requires CrashOk(d, c)
    ensures Left(d, c).manifest == d.manifest && Left(d, c).tables == d.tables && Left(d, c).logs.Keys == d.logs.Keys
  {}

  lemma RestParts(st: State)
    requires AtRest(st)
    ensures |st.version| == NUM_LEVELS && SortedVersion(st.version) && DistinctNumbers(st.version) && NumbersUsed(st)
  {}

  /** The manifest that an open writes leads to the version it brings up. */
  lemma NewManifest(d: Db, k: Disk, o: Opening)
    requires d.flushed <= |d.batches| && Openable(k, o) && AtRest(Base(d)) && SameTables(FoundState(k), Base(d))
             && ManifestVersion(k) == BareVersion(d.st.version)
    requires NewTables(RecoveryEdit(o.files), Base(d).used) && Base(d).version == d.st.version
             && |d.st.version| == NUM_LEVELS
    requires forall l, g :: 0 <= l < NUM_LEVELS && g in Edited(d.st.version, RecoveryEdit(o.files))[l] ==>
             g in d.st.version[l] || AddedAt(Adds(o.files), l, g)
    ensures Manifested(Edits(Open(k, o).disk.manifest), Open(k, o).version, Open(k, o).used)
  {
    hide Base, AtRest, MayReplay, NewTables, Adds, Manifested, FoundState, ManifestVersion, AllFiles, Edited, Records,
         AddedNumbers;
    RestParts(Base(d));
    VersionNumbers(Base(d));
    var v, edit := d.st.version, RecoveryEdit(o.files);
    SnapshotManifest(v, Base(d).used);
    LogNewTables([FileEdit({}, AllFiles(BareVersion(v), NUM_LEVELS))], v, Base(d).used, edit);
    assert Edits(Open(k, o).disk.manifest) == [FileEdit({}, AllFiles(BareVersion(v), NUM_LEVELS))] + [BareEdit(edit)];
  }

  lemma OpenKeeps(d: Db, c: Crash, o: Opening)
    requires DbInv(d) && DbEnabled(d, CrashAndOpen(c, o))
    ensures DbInv(DbNext(d, CrashAndOpen(c, o)))
  {
    hide Inv, Batched, Logged, TablesFaithful, Registered, Present, Openable, Base, Surviving, Flushed, CrashOk, Follow,
         Manifested, Open, Records, Writes, KeptOld, KeptNew, Replayed, MaxSequence, Left;
    var d', k, base := DbNext(d, CrashAndOpen(c, o)), Left(d, c), Base(d);
    BaseParts(d);
    OpenReplays(d, c, o);
    var all := d.batches[..d.flushed] + Surviving(d, c);
    var r := Replayed(base, o.chunks, o.files);
    SurvivorsFollow(d, c);
    SurvivorsAfter(d, c);
    FoundIsBase(d, c);
    LeftShape(d, c);
    OpenShape(k, o, d.batches[..d.flushed], FloorAfter(d));
    MaxIsLast(Surviving(d, c), LastOf(d.batches[..d.flushed]));
    LastOfAll(d.batches[..d.flushed], Surviving(d, c));
    Reached(d, r, Surviving(d, c), d'.st.lastSequence);
    assert d'.st == r.(lastSequence := d'.st.lastSequence);
    OpenedBatches(d', all);
    OpenedFaithful(d'.st, all);
    assert all[..|all|] == all;
    SyncedWithin(d, c);
    OpenedLogs(d', k.logs);
    OpenRegistered(k, o, d');
  }

  lemma LastOfAll(a: seq<Batch>, b: seq<Batch>)
    ensures b != [] ==> LastOf(a + b) == LastOf(b)
    ensures b == [] ==> LastOf(a + b) == LastOf(a)
  {
    if b == [] { assert a + b == a; }
  }

  /** The numbers that an open brings up. */
  lemma OpenShape(k: Disk, o: Opening, flushed: seq<Batch>, floor: nat)
    requires Openable(k, o)
    ensures NamedLast(k.manifest).Some? && NamedLog(k.manifest).Some?
    ensures var d', max, named := Reopened(k, o, flushed, floor), MaxSequence(Records(k, o.newLog)),
            NamedLast(k.manifest).value;
            && d'.st.lastSequence == d'.manifestLast == (if named < max then max else named)
            && d'.logs == k.logs[o.newLog := LogFile([], 0)] && d'.tables == Written(k.tables, o.files)
    ensures forall n :: n in k.logs ==> n < o.newLog
  {
    hide MaxSequence, Written, Saved, MayReplay, Edited, RecoveryEdit;
  }

  lemma OpenRegistered(k: Disk, o: Opening, d: Db)
    requires Openable(k, o) && d.manifest == Open(k, o).disk.manifest && d.manifestLog == o.newLog
             && d.manifestLast == Open(k, o).lastSequence
    requires Manifested(Edits(d.manifest), d.st.version, d.st.used)
    ensures Registered(d)
  {
    hide Manifested, MayReplay, Saved, AllFiles, Edited, RecoveryEdit;
    var m := d.manifest;
    assert m == m[..1] + [m[1]];
    EditsSnoc(m[..1], m[1]);
  }

  lemma SyncedWithin(d: Db, c: Crash)
    requires CrashOk(d, c)
    ensures forall n :: n in Left(d, c).logs ==> Left(d, c).logs[n].synced <= |Left(d, c).logs[n].batches|
  {}

  lemma BaseParts(d: Db)
    requires d.flushed <= |d.batches|
    ensures var b := Base(d);
            b.version == d.st.version && b.history == Writes(d.batches[..d.flushed])
              && b.lastSequence == LastOf(d.batches[..d.flushed])
            && b.snapshots == [] && b.job == None
  {}

  lemma Reached(d: Db, r: State, s: seq<Batch>, last: nat)
    requires d.flushed <= |d.batches| && Flushed(Base(d), s, r) && Inv(d.st) && d.manifestLast <= d.st.lastSequence
    requires last == if d.manifestLast < MaxSequence(s) then MaxSequence(s) else d.manifestLast
    requires MaxSequence(s) == LastOf(s)
             && LastOf(d.batches[..d.flushed] + s) == (if s == [] then LastOf(d.batches[..d.flushed]) else LastOf(s))
    requires Follow(s, LastOf(d.batches[..d.flushed])) && LastOf(d.batches[..d.flushed]) <= d.manifestLast
    ensures Inv(r.(lastSequence := last)) && r.mem == [] && r.imm.None? && r.snapshots == [] && r.job == None
            && r.floor == FloorAfter(d)
    ensures r.history == Writes(d.batches[..d.flushed] + s) && LastOf(d.batches[..d.flushed] + s) <= last
  {
    hide Layered, Faithful, SnapshotsOk, NumbersUsed, JobOk, Writes, MaxSequence;
    WritesConcat(d.batches[..d.flushed], s);
    if s != [] { assert s[|s|-1].Next() <= MAX_SEQUENCE; }
    LoseSequenceKeepsInv(r, last - r.lastSequence);
  }

  lemma OpenedBatches(d: Db, all: seq<Batch>)
    requires d.batches == all && d.flushed == d.rotated == |all| && Follow(all, 0) && LastOf(all) <= d.st.lastSequence
    requires d.st.history == Writes(all) && d.st.mem == [] && d.st.imm.None?
    ensures Batched(d)
  {
    hide Follow, Writes;
    assert d.batches[d.flushed..d.rotated] == [] && d.batches[d.rotated..] == [];
    NoWrites();
  }

  lemma OpenedFaithful(st: State, all: seq<Batch>)
    requires Inv(st) && st.mem == [] && st.imm.None? && st.history == Writes(all)
    ensures TablesFaithful(st.version, Writes(all), st.floor)
  {
    hide Layered, Recorded, SnapshotsOk, NumbersUsed, JobOk, EntriesOf, Writes;
    assert InMemory(st) == {};
    NothingAbove(EntriesOf(st.version));
    forall u, s: nat | st.floor <= s ensures Read(EntriesOf(st.version), u, s) == Read(Elements(Writes(all)), u, s) {
      assert Read(Stored(st), u, s) == Read(Elements(st.history), u, s);
    }
  }

  lemma OpenedLogs(d: Db, logs: map<nat, LogFile>)
    requires d.logs == logs[d.currentLog := LogFile([], 0)] && (forall n :: n in logs ==> n < d.currentLog)
    requires forall n :: n in logs ==> logs[n].synced <= |logs[n].batches|
    requires d.manifestLog == d.currentLog && d.flushed == d.rotated == |d.batches| && d.st.imm.None?
    ensures Logged(d)
  {}

  // ----- every run -----

  /** A database that was just created: a manifest with no files, and an empty log. */
  const NEW_MANIFEST: seq<Record> :=
    [Record(FileEdit({}, AllFiles(BareVersion(NO_FILES), NUM_LEVELS)), None, None),
      Record(BareEdit(FileEdit({}, [])), Some(1), Some(0))]

  const NEW_DB := Db(EMPTY_DB, [], 0, 0, map[1 := LogFile([], 0)], 1, 1, 1, 0, map[], {}, NEW_MANIFEST)

  lemma NewDbInv()
    ensures DbInv(NEW_DB)
  {
    InitialInv();
    NoFilesIsValid();
    NewRegistered();
    hide Inv, ValidVersion, Registered;
    assert Elements(Writes([])) == {};
  }

  lemma NewRegistered()
    ensures Registered(NEW_DB)
  {
    hide Manifested, AllFiles, ValidVersion;
    NoFilesIsValid();
    NumbersOfNothing();
    var first, nothing := FileEdit({}, AllFiles(BareVersion(NO_FILES), NUM_LEVELS)), FileEdit({}, []);
    SnapshotManifest(NO_FILES, {});
    EditedNothing(NO_FILES);
    assert AddedNumbers(nothing) == {};
    LogNewTables([first], NO_FILES, {}, nothing);
    assert NEW_MANIFEST == NEW_MANIFEST[..1] + [NEW_MANIFEST[1]] && NEW_MANIFEST[..1] == [NEW_MANIFEST[0]];
    EditsSnoc(NEW_MANIFEST[..1], NEW_MANIFEST[1]);
    assert Edits(NEW_MANIFEST[..1]) == [first];
    assert {} + AddedNumbers(nothing) == {};
  }

  lemma NumbersOfNothing()
    ensures DistinctNumbers(NO_FILES) && forall l :: 0 <= l < NUM_LEVELS ==> NO_FILES[l] == []
  {
    assert forall l :: 0 <= l < |NO_FILES| ==> NO_FILES[l] == [];
  }

  lemma DbStepKeeps(d: Db, step: DbStep)
    requires DbInv(d) && DbEnabled(d, step)
    ensures DbInv(DbNext(d, step))
  {
    hide DbInv, DbEnabled, DbNext;
    match step
    case Append(ops, sync) => AppendKeeps(d, ops, sync);
    case Quiet(s) => QuietKeeps(d, s);
    case SwitchLog(n) => SwitchKeeps(d, n);
    case Build(f) => BuildKeeps(d, f);
    case FlushTable(file, place) => FlushKeeps(d, file, place);
    case MoveTable(f, level) => MoveKeeps(d, f, level);
    case InstallTables(input, outs) => InstallKeeps(d, input, outs);
    case Collect(pinned) => CollectKeeps(d, pinned);
    case CrashAndOpen(c, o) => OpenKeeps(d, c, o);
  }

  ghost predicate IsDbRun(d: Db, steps: seq<DbStep>)
    decreases |steps|
  {
    steps == [] || (DbEnabled(d, steps[0]) && IsDbRun(DbNext(d, steps[0]), steps[1..]))
  }

  ghost function DbFinal(d: Db, steps: seq<DbStep>): Db
    requires IsDbRun(d, steps)
    decreases |steps|
  {
    if steps == [] then d else DbFinal(DbNext(d, steps[0]), steps[1..])
  }

  lemma {:induction false} DbRunKeeps(d: Db, steps: seq<DbStep>)
    requires DbInv(d) && IsDbRun(d, steps)
    ensures DbInv(DbFinal(d, steps))
    decreases |steps|
  {
    hide DbInv, DbEnabled, DbNext;
    if steps != [] {
      DbStepKeeps(d, steps[0]);
      DbRunKeeps(DbNext(d, steps[0]), steps[1..]);
    }
  }

  /** In every run the edits in the manifest let a file number enter a level at most once, and they
      lead to the current version. */
  lemma RunEntersOnce(steps: seq<DbStep>)
    requires IsDbRun(NEW_DB, steps)
    ensures var d := DbFinal(NEW_DB, steps);
            EntersOnce(NO_FILES, Edits(d.manifest))
              && Saved(NO_FILES, Accumulated(Edits(d.manifest))) == BareVersion(d.st.version)
  {
    hide DbEnabled, DbNext, Batched, Logged, TablesFaithful, Inv, Saved, EntersOnce;
    NewDbInv();
    DbRunKeeps(NEW_DB, steps);
    var d := DbFinal(NEW_DB, steps);
    ManifestRecovers(Edits(d.manifest), d.st.version, d.st.used, d.tables);
  }

  /** Every batch that was written with a sync is in what a crash leaves. */
  lemma SyncedSurvive(d: Db, c: Crash, b: Batch)
    requires DbInv(d) && CrashOk(d, c) && b in d.batches && b.sync
    ensures d.flushed + KeptOld(d, c) <= d.rotated && d.rotated + KeptNew(d, c) <= |d.batches|
    ensures b in d.batches[..d.flushed] + Surviving(d, c)
  {
    hide Inv, TablesFaithful, Present, Follow, Writes, Registered;
    KeptWithin(d, c);
    var i :| 0 <= i < |d.batches| && d.batches[i] == b;
    var f := d.flushed + KeptOld(d, c);
    var all := d.batches[..d.flushed] + Surviving(d, c);
    if i < d.flushed {
      assert d.batches[..d.flushed][i] == b;
    } else if i < d.rotated {
      assert d.logs[d.oldLog].batches[i - d.flushed] == b;
      assert d.batches[d.flushed..f][i - d.flushed] == b;
    } else {
      assert d.logs[d.currentLog].batches[i - d.rotated] == b;
      assert d.batches[d.rotated..d.rotated + KeptNew(d, c)][i - d.rotated] == b;
    }
  }

  lemma AllKept(d: Db, c: Crash)
    requires Batched(d) && Logged(d) && CrashOk(d, c) && ProcessOnly(DiskOf(d), c)
    ensures d.flushed + KeptOld(d, c) == d.rotated && d.rotated + KeptNew(d, c) == |d.batches|
  {
    hide Follow, Writes, Elements;
  }

  /** When only the process dies, nothing is lost. */
  lemma ProcessCrashKeepsAll(d: Db, c: Crash)
    requires Batched(d) && Logged(d) && CrashOk(d, c) && ProcessOnly(DiskOf(d), c)
    ensures d.flushed + KeptOld(d, c) <= d.rotated && d.rotated + KeptNew(d, c) <= |d.batches|
    ensures d.batches[..d.flushed] + Surviving(d, c) == d.batches + c.inflight
  {
    hide Batched, Logged, CrashOk, ProcessOnly, KeptOld, KeptNew;
    AllKept(d, c);
    assert d.batches == d.batches[..d.flushed] + (d.batches[d.flushed..d.rotated] + d.batches[d.rotated..|d.batches|]);
  }

  lemma CrashKeepsWrites(d: Db, c: Crash, o: Opening, u: UserKey, b: Batch)
    requires DbInv(d) && DbEnabled(d, CrashAndOpen(c, o))
    ensures Recovered(d, c, o, u, b)
  {
    hide DbEnabled, DbNext, DbInv, Read, PerformAll, OpsIn, Writes, Stored, Surviving, CrashOk, ProcessOnly, Batched,
         Logged,
         Registered, KeptOld, KeptNew;
    BatchesOf(d);
    SurvivorsOf(d, c, o);
    if b in d.batches && b.sync { SyncedSurvive(d, c, b); }
    if ProcessOnly(DiskOf(d), c) { ProcessCrashKeepsAll(d, c); }
    OpenKeeps(d, c, o);
    AnswersAtLast(DbNext(d, CrashAndOpen(c, o)), u);
  }

  lemma BatchesOf(d: Db)
    requires DbInv(d)
    ensures Batched(d) && Logged(d) && Registered(d) && |d.st.version| == NUM_LEVELS
  {}

  /** What an open after a crash gives: the batches from before without two stretches at the ends
      of the two logs, each whole or absent; among them every batch acknowledged with a sync, and
      after a mere process crash every batch; and answers like the map that writing them one
      after the other gives. */
  ghost predicate Recovered(d: Db, c: Crash, o: Opening, u: UserKey, b: Batch)
    requires DbEnabled(d, CrashAndOpen(c, o))
  {
    var d' := DbNext(d, CrashAndOpen(c, o));
    && d.flushed + KeptOld(d, c) <= d.rotated && d.rotated + KeptNew(d, c) <= |d.batches|
    && d'.batches == d.batches[..d.flushed + KeptOld(d, c)]
                     + (d.batches[d.rotated..d.rotated + KeptNew(d, c)] + c.inflight)
    && (b in d.batches && b.sync ==> b in d'.batches)
    && (ProcessOnly(DiskOf(d), c) ==> d'.batches == d.batches + c.inflight)
    && d'.st.history == Writes(d'.batches)
    && Read(Stored(d'.st), u, d'.st.lastSequence) == Lookup(PerformAll(map[], OpsIn(d'.batches)), u)
  }

  /** From every state that any run reaches. */
  lemma RecoveryKeepsWrites(steps: seq<DbStep>, c: Crash, o: Opening, u: UserKey, b: Batch)
    requires IsDbRun(NEW_DB, steps) && DbEnabled(DbFinal(NEW_DB, steps), CrashAndOpen(c, o))
    ensures Recovered(DbFinal(NEW_DB, steps), c, o, u, b)
  {
    hide DbEnabled, DbInv, Recovered, DbNext;
    NewDbInv();
    DbRunKeeps(NEW_DB, steps);
    CrashKeepsWrites(DbFinal(NEW_DB, steps), c, o, u, b);
  }

  lemma SurvivorsOf(d: Db, c: Crash, o: Opening)
    requires DbInv(d) && DbEnabled(d, CrashAndOpen(c, o))
    ensures CrashOk(d, c) && d.flushed + KeptOld(d, c) <= d.rotated && d.rotated + KeptNew(d, c) <= |d.batches|
    ensures DbNext(d, CrashAndOpen(c, o)).batches == d.batches[..d.flushed] + Surviving(d, c)
         == d.batches[..d.flushed + KeptOld(d, c)] + (d.batches[d.rotated..d.rotated + KeptNew(d, c)] + c.inflight)
  {
    hide Inv, Batched, TablesFaithful, Logged, Registered, Present, Openable, Open, Writes, Base, Follow, Surviving,
         CrashOk, Records;
    OpenReplays(d, c, o);
    SurvivorsFollow(d, c);
  }

  lemma AnswersAtLast(d: Db, u: UserKey)
    requires DbInv(d)
    ensures d.st.history == Writes(d.batches)
    ensures Read(Stored(d.st), u, d.st.lastSequence) == Lookup(PerformAll(map[], OpsIn(d.batches)), u)
  {
    hide Layered, TablesFaithful, Logged, Registered, Present, NumbersUsed, JobOk, Writes, Stored, PerformAll, OpsIn,
         MapAt, Lookup, Follow, LastOf;
    NextBelow(d.batches, d.st.lastSequence);
    BatchesOnMap(d.batches, d.st.lastSequence);
    assert d.st.floor <= d.st.lastSequence;
    assert Read(Stored(d.st), u, d.st.lastSequence) == Read(Elements(d.st.history), u, d.st.lastSequence);
    ReadIsMapLookup(d.st.history, u, d.st.lastSequence);
  }

  // ----- the code does not look whether outputs fit -----

  ghost predicate DbPossible(d: Db, step: DbStep) {
    if step.InstallTables? then
      && |d.st.version| == NUM_LEVELS && d.currentLog in d.logs && d.flushed <= d.rotated <= |d.batches|
      && IsMerged(d.st, step.input, step.outs) && forall o :: o in step.outs ==>
         o.number in d.tables && d.tables[o.number] == o
    else DbEnabled(d, step)
  }

  ghost function DbPerformed(d: Db, step: DbStep): Db
    requires DbPossible(d, step)
  {
    if step.InstallTables? then InstalledDb(d, step.outs) else DbNext(d, step)
  }

  ghost predicate DbOutcomeFits(d: Db, step: DbStep)
    requires DbPossible(d, step)
  {
    step.InstallTables? ==> Fits(d.st.version, d.st.job.value.level, d.st.job.value.in1, step.outs)
  }

  /** Every step that the code may take keeps the invariant, but for an installation of outputs
      that do not fit, which breaks it. */
  lemma DbStepKeepsIffFits(d: Db, step: DbStep)
    requires DbInv(d) && DbPossible(d, step)
    ensures DbInv(DbPerformed(d, step)) <==> DbOutcomeFits(d, step)
  {
    hide Batched, Logged, TablesFaithful, Registered, Present, Inv, Openable, CrashOk, Open, IsMerged, MayFlush, Fits;
    if step.InstallTables? {
      InstallKeepsInvIffFits(d.st, step.input, step.outs);
      if DbOutcomeFits(d, step) { DbStepKeeps(d, step); }
    } else {
      DbStepKeeps(d, step);
    }
  }

  /** A run of what the code may do, in which every merge that begins has inputs without a gap. */
  ghost predicate IsGaplessRun(d: Db, steps: seq<DbStep>)
    decreases |steps|
  {
    steps == [] || (DbPossible(d, steps[0]) && BeginsWithoutGap(steps[0])
      && IsGaplessRun(DbPerformed(d, steps[0]), steps[1..]))
  }

  ghost predicate BeginsWithoutGap(step: DbStep) {
    step.Quiet? && step.step.Begin? ==> Connected(step.step.in0 + step.step.in1)
  }

  /** Then its installations fit. */
  lemma GaplessStep(d: Db, step: DbStep)
    requires DbInv(d) && JobHasNoGap(d.st) && DbPossible(d, step) && BeginsWithoutGap(step)
    ensures DbEnabled(d, step) && DbNext(d, step) == DbPerformed(d, step) && JobHasNoGap(DbNext(d, step).st)
  {
    hide Batched, Logged, TablesFaithful, Registered, Present, Inv, Connected, Openable, CrashOk, Open, IsMerged,
         MayFlush, Enabled;
    match step
    case Append(ops, sync) => WriteKeepsJob(d.st, ops);
    case Quiet(s) => StepKeepsNoGap(d.st, s);
    case InstallTables(input, outs) => StepKeepsNoGap(d.st, Install(input, outs)); InstallAllowed(d.st, input, outs);
    case _ =>
  }

  lemma InstallAllowed(st: State, input: seq<Entry>, outs: seq<FileMeta>)
    requires Enabled(st, Install(input, outs))
    ensures MayInstall(st, input, outs)
  {}

  lemma {:induction false} GaplessRun(d: Db, steps: seq<DbStep>)
    requires DbInv(d) && JobHasNoGap(d.st) && IsGaplessRun(d, steps)
    ensures IsDbRun(d, steps)
    decreases |steps|
  {
    hide DbInv, DbEnabled, DbNext, DbPossible, DbPerformed, BeginsWithoutGap, JobHasNoGap;
    if steps != [] {
      GaplessStep(d, steps[0]);
      DbStepKeeps(d, steps[0]);
      GaplessRun(DbNext(d, steps[0]), steps[1..]);
    }
  }

  /** Runs of the code without requested merges over a gap are such runs, so that all of this
      holds for them. */
  lemma CodeRunsAreRuns(steps: seq<DbStep>)
    requires IsGaplessRun(NEW_DB, steps)
    ensures IsDbRun(NEW_DB, steps)
  {
    hide DbInv, DbPossible;
    NewDbInv();
    GaplessRun(NEW_DB, steps);
  }

  // ----- a database can always be opened -----

  /** After every crash of every run the database opens. */
  lemma CrashedDbOpens(steps: seq<DbStep>, c: Crash) returns (o: Opening)
    requires IsDbRun(NEW_DB, steps) && CrashOk(DbFinal(NEW_DB, steps), c)
    ensures DbEnabled(DbFinal(NEW_DB, steps), CrashAndOpen(c, o))
  {
    hide DbEnabled, DbInv, DbNext, CrashOk;
    NewDbInv();
    DbRunKeeps(NEW_DB, steps);
    o := SomeOpening(DbFinal(NEW_DB, steps), c);
  }

  /** The crash in which only the process dies can happen in every state. */
  lemma ProcessCrash(d: Db) returns (c: Crash)
    requires DbInv(d)
    ensures CrashOk(d, c) && ProcessOnly(DiskOf(d), c)
  {
    hide Inv, Batched, TablesFaithful, Registered, Present;
    c := Crash(map n | n in d.logs :: |d.logs[n].batches|, []);
  }

  lemma SomeOpening(d: Db, c: Crash) returns (o: Opening)
    requires DbInv(d) && CrashOk(d, c)
    ensures DbEnabled(d, CrashAndOpen(c, o))
  {
    hide Inv, Batched, Logged, TablesFaithful, Registered, Present, Base, FoundState, Surviving, Follow,
         ManifestVersion, MayReplay;
    var n := NumberAbove(d.logs.Keys + {d.manifestLog});
    LeftShape(d, c);
    FoundIsBase(d, c);
    RecordsSurvive(d, c, n);
    SurvivorsAfter(d, c);
    BaseAtRest(d);
    BaseParts(d);
    var files := SomeReplay(Base(d), Surviving(d, c));
    ReplayLooksAtTables(FoundState(Left(d, c)), Base(d), [Surviving(d, c)], files);
    o := Opening([Surviving(d, c)], files, n);
    BatchesOf(d);
    RunningShape(d);
  }

  lemma RunningShape(d: Db)
    requires DbInv(d)
    ensures |d.st.version| == NUM_LEVELS && d.currentLog in d.logs && d.flushed <= d.rotated <= |d.batches|
  {}

  // ----- removing obsolete files -----

  /** The crash as the files that are left see it. */
  function Restricted(c: Crash, logs: map<nat, LogFile>): Crash {
    c.(kept := map n | n in c.kept && n in logs :: c.kept[n])
  }

  /** Removing obsolete files changes no open after any crash: the same cuts and tables open it, or
      do not, to the same version, records and numbers. */
  lemma CollectKeepsNeeded(d: Db, pinned: set<nat>, c: Crash, o: Opening)
    requires DbInv(d) && CrashOk(d, c)
    ensures var d' := Collected(d, pinned); var c' := Restricted(c, d'.logs);
            CrashOk(d', c') && OpensAlike(Left(d, c), Left(d', c'), o)
  {
    hide Inv, Batched, TablesFaithful, Manifested, Present, OpensAlike, Follow, BareVersion, Saved, Logged, CrashOk,
         Left, LogsBelow;
    var d' := Collected(d, pinned);
    var c' := Restricted(c, d'.logs);
    FoundIsBase(d, c);
    LeftShape(d, c);
    CollectedCrash(d, pinned, c, o.newLog);
    LeftShape(d', c');
    var k, k' := Left(d, c), Left(d', c');
    forall l: nat, f: FileMeta | l < |ManifestVersion(k)| && f in ManifestVersion(k)[l]
      ensures (f.number in k.tables <==> f.number in k'.tables)
              && (f.number in k.tables ==> k.tables[f.number] == k'.tables[f.number])
    {
      NamedIsLive(d.st.version, l, f);
    }
    SparedFiles(k, k', o);
  }

  /** The logs that recovery reads are the same. */
  lemma CollectedCrash(d: Db, pinned: set<nat>, c: Crash, to: nat)
    requires Logged(d) && CrashOk(d, c)
    ensures var d' := Collected(d, pinned); var c' := Restricted(c, d'.logs);
            && CrashOk(d', c')
            && (forall n :: n >= d.manifestLog ==> BatchesAt(Left(d, c).logs, n) == BatchesAt(Left(d', c').logs, n))
            && (LogsBelow(Left(d, c), d.manifestLog, to) <==> LogsBelow(Left(d', c'), d.manifestLog, to))
  {
    hide Follow, Numbers;
    var d' := Collected(d, pinned);
    var c' := Restricted(c, d'.logs);
    assert CrashOk(d', c');
    assert forall n :: n >= d.manifestLog ==> (n in Left(d, c).logs <==> n in Left(d', c').logs);
  }

  lemma NamedIsLive(v: Version, l: nat, f: FileMeta)
    requires l < |BareVersion(v)| && f in BareVersion(v)[l]
    ensures f.number in Numbers(v)
  {
    var i :| 0 <= i < |BareVersion(v)[l]| && BareVersion(v)[l][i] == f;
    assert v[l][i] in v[l];
  }

  /** Every crash of the database with fewer files is one of the database before. */
  lemma CollectAddsNoCrash(d: Db, pinned: set<nat>, c: Crash) returns (b: Crash)
    requires DbInv(d) && CrashOk(Collected(d, pinned), c)
    ensures CrashOk(d, b) && CrashOk(Collected(d, pinned), Restricted(b, Collected(d, pinned).logs))
    ensures Left(Collected(d, pinned), Restricted(b, Collected(d, pinned).logs)) == Left(Collected(d, pinned), c)
  {
    hide Inv, Batched, TablesFaithful, Registered, Present, Follow;
    var d' := Collected(d, pinned);
    b := c.(kept := map n | n in d.logs :: if n in d'.logs then c.kept[n] else |d.logs[n].batches|);
  }

  /** And what it keeps is needed: without a table that stays no open succeeds, unless the table is
      being built or its version is in use, and without a log that stays and has records some record
      is lost. */
  lemma NothingMoreIsObsolete(d: Db, pinned: set<nat>, c: Crash, o: Opening, n: nat)
    requires DbInv(d) && CrashOk(d, c)
    ensures n in Collected(d, pinned).tables && n !in d.pending && n !in pinned ==>
              !Openable(Left(d, c).(tables := d.tables - {n}), o)
    ensures n in Collected(d, pinned).logs && n < o.newLog && Left(d, c).logs[n].batches != [] ==>
              |RecordsFrom(Left(d, c).logs - {n}, d.manifestLog, o.newLog)| < |RecordsFrom(Left(d, c).logs,
                d.manifestLog, o.newLog)|
  {
    hide Inv, Batched, Logged, TablesFaithful, Manifested, Present, Saved, MayReplay;
    FoundIsBase(d, c);
    LeftShape(d, c);
    var k := Left(d, c);
    if n in Numbers(d.st.version) {
      var l, f := LiveIsNamed(d.st.version, n);
      TableIsNeeded(k, l, f, o);
    }
    if n in d.logs && d.manifestLog <= n < o.newLog && k.logs[n].batches != [] {
      LogIsNeeded(k.logs, d.manifestLog, o.newLog, n);
    }
  }

  lemma LiveIsNamed(v: Version, n: nat) returns (l: nat, f: FileMeta)
    requires n in Numbers(v)
    ensures l < |BareVersion(v)| && f in BareVersion(v)[l] && f.number == n
  {
    var i, g :| 0 <= i < |v| && g in v[i] && g.number == n;
    var j :| 0 <= j < |v[i]| && v[i][j] == g;
    l, f := i, BareVersion(v)[i][j];
  }
}
