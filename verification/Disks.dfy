/** What is on disk, what a crash leaves of it, and opening a database from it. */
module Disks {
  import opened InternalKeys
  import opened Versions
  import opened Builders
  import opened Manifests
  import opened Engine
  import opened ManifestLogs
  import opened Batches
  import opened Replays

  /** A log file: its records, and how many of them are known to be on stable storage. */
  datatype LogFile = LogFile(batches: seq<Batch>, synced: nat)

  /** The current manifest, and the log files and tables by number. */
  datatype Disk = Disk(manifest: seq<Record>, logs: map<nat, LogFile>, tables: map<nat, FileMeta>)

  // ----- the records to replay -----

  function BatchesAt(logs: map<nat, LogFile>, n: nat): seq<Batch> { if n in logs then logs[n].batches else [] }

  /** The records of the logs `from` to `to - 1` in the order of their numbers. */
  function RecordsFrom(logs: map<nat, LogFile>, from: nat, to: nat): seq<Batch>
    decreases if from < to then to - from else 0
  {
    if from >= to then []
    else BatchesAt(logs, from) + RecordsFrom(logs, from + 1, to)
  }

  lemma {:induction false} RecordsSplit(logs: map<nat, LogFile>, from: nat, mid: nat, to: nat)
    requires from <= mid <= to
    ensures RecordsFrom(logs, from, to) == RecordsFrom(logs, from, mid) + RecordsFrom(logs, mid, to)
    decreases mid - from
  {
    if from < mid { RecordsSplit(logs, from + 1, mid, to); }
  }

  lemma {:induction false} NoRecords(logs: map<nat, LogFile>, from: nat, to: nat)
    requires forall n :: n in logs && from <= n < to ==> logs[n].batches == []
    ensures RecordsFrom(logs, from, to) == []
    decreases if from < to then to - from else 0
  {
    if from < to { NoRecords(logs, from + 1, to); }
  }

  lemma OneLog(logs: map<nat, LogFile>, from: nat, n: nat, to: nat)
    requires from <= n < to && n in logs && forall m :: m in logs && from <= m < to && m != n ==> logs[m].batches == []
    ensures RecordsFrom(logs, from, to) == logs[n].batches
  {
    RecordsSplit(logs, from, n, to);
    NoRecords(logs, from, n);
    NoRecords(logs, n + 1, to);
  }

  lemma TwoLogs(logs: map<nat, LogFile>, from: nat, m: nat, n: nat, to: nat)
    requires from <= m < n < to && m in logs && n in logs
    requires forall x :: x in logs && from <= x < to && x != m && x != n ==> logs[x].batches == []
    ensures RecordsFrom(logs, from, to) == logs[m].batches + logs[n].batches
  {
    RecordsSplit(logs, from, n, to);
    OneLog(logs, from, m, n);
    OneLog(logs, n, n, to);
  }

  lemma {:induction false} SameRecords(a: map<nat, LogFile>, b: map<nat, LogFile>, from: nat, to: nat)
    requires forall n :: from <= n < to ==> BatchesAt(a, n) == BatchesAt(b, n)
    ensures RecordsFrom(a, from, to) == RecordsFrom(b, from, to)
    decreases if from < to then to - from else 0
  {
    if from < to { SameRecords(a, b, from + 1, to); }
  }

  /** A log with records cannot be spared. */
  lemma {:induction false} LogIsNeeded(logs: map<nat, LogFile>, from: nat, to: nat, n: nat)
    requires n in logs && from <= n < to && logs[n].batches != []
    ensures |RecordsFrom(logs - {n}, from, to)| < |RecordsFrom(logs, from, to)|
    decreases if from < to then to - from else 0
  {
    if from < n {
      LogIsNeeded(logs, from + 1, to, n);
    } else {
      SameRecords(logs - {n}, logs, from + 1, to);
    }
  }

  /** The files of the directory that are logs to replay, sorted by number. */
  method ListLogs(logs: map<nat, LogFile>, minLog: nat) returns (numbers: seq<nat>)
    ensures forall i, j :: 0 <= i < j < |numbers| ==> numbers[i] < numbers[j]
    ensures forall n :: n in numbers <==> n in logs && n >= minLog
  {
    numbers := [];
    var left := logs.Keys;
    while left != {}
      invariant left <= logs.Keys
      invariant forall i, j :: 0 <= i < j < |numbers| ==> numbers[i] < numbers[j]
      invariant forall n :: n in numbers <==> n in logs && n !in left && n >= minLog
      decreases left
    {
      var n :| n in left;
      left := left - {n};
      if n >= minLog { numbers := InsertNumber(numbers, n); }
    }
  }

  method InsertNumber(numbers: seq<nat>, n: nat) returns (r: seq<nat>)
    requires n !in numbers && forall i, j :: 0 <= i < j < |numbers| ==> numbers[i] < numbers[j]
    ensures forall i, j :: 0 <= i < j < |r| ==> r[i] < r[j]
    ensures forall m :: m in r <==> m in numbers || m == n
  {
    var k := 0;
    while k < |numbers| && numbers[k] < n
      invariant 0 <= k <= |numbers| && forall i :: 0 <= i < k ==> numbers[i] < n
    {
      k := k + 1;
    }
    assert numbers == numbers[..k] + numbers[k..];
    r := numbers[..k] + [n] + numbers[k..];
    forall i | k <= i < |numbers| ensures n < numbers[i] { assert numbers[i] in numbers; }
  }

  /** Recovery reads the logs from the one in the manifest on, oldest first. */
  method ReadLogs(logs: map<nat, LogFile>, minLog: nat, ghost to: nat) returns (bs: seq<Batch>)
    requires forall n :: n in logs && n >= minLog ==> n < to
    requires minLog <= to
    ensures bs == RecordsFrom(logs, minLog, to)
  {
    hide RecordsFrom;
    var numbers := ListLogs(logs, minLog);
    bs := [];
    ghost var next := minLog;
    NoRecords(logs, minLog, minLog);
    forall j | 0 <= j < |numbers| ensures numbers[j] >= minLog { assert numbers[j] in numbers; }
    for i := 0 to |numbers|
      invariant minLog <= next <= to && bs == RecordsFrom(logs, minLog, next)
      invariant forall j :: 0 <= j < |numbers| ==> (j < i <==> numbers[j] < next)
    {
      var n := numbers[i];
      assert n in numbers;
      Listed(logs, minLog, numbers, i, next);
      RecordsSplit(logs, minLog, next, n + 1);
      OneLog(logs, next, n, n + 1);
      bs := bs + logs[n].batches;
      next := n + 1;
    }
    Listed(logs, minLog, numbers, |numbers|, next);
    RecordsSplit(logs, minLog, next, to);
    NoRecords(logs, next, to);
  }

  /** From `next` on there is no log before the `i`-th listed one. */
  lemma Listed(logs: map<nat, LogFile>, minLog: nat, numbers: seq<nat>, i: nat, next: nat)
    requires i <= |numbers| && minLog <= next && forall n :: n in numbers <==> n in logs && n >= minLog
    requires forall a, b :: 0 <= a < b < |numbers| ==> numbers[a] < numbers[b]
    requires forall j :: 0 <= j < |numbers| ==> (j < i <==> numbers[j] < next)
    ensures i < |numbers| ==> next <= numbers[i]
    ensures forall m :: m in logs && m >= minLog ==> m < next || (i < |numbers| && m >= numbers[i])
  {
    forall m | m in logs && m >= minLog ensures m < next || (i < |numbers| && m >= numbers[i]) {
      assert m in numbers;
      var j :| 0 <= j < |numbers| && numbers[j] == m;
    }
  }

  // ----- opening -----

  /** The cuts that recovery makes in the records, the table it writes for each piece, if that has
      writes, and the log it starts. */
  datatype Opening = Opening(chunks: seq<seq<Batch>>, files: seq<Option<FileMeta>>, newLog: nat)

  /** The version that the manifest says, its tables by number only. */
  function ManifestVersion(k: Disk): Version {
    Saved(NO_FILES, Accumulated(Edits(k.manifest)))
  }

  /** The state that recovery starts its replay from. */
  ghost function FoundState(k: Disk): State
    requires TablesThere(ManifestVersion(k), k.tables)
  {
    State([], None, Loaded(ManifestVersion(k), k.tables), 0, [], None, [], 0,
      set p | p in Entered(Edits(k.manifest)) :: p.1)
  }

  function Records(k: Disk, newLog: nat): seq<Batch>
    requires NamedLog(k.manifest).Some?
  {
    RecordsFrom(k.logs, NamedLog(k.manifest).value, newLog)
  }

  ghost predicate LogsBelow(k: Disk, from: nat, to: nat) {
    forall n :: n in k.logs && from <= n ==> n < to
  }

  /** An open fails without a log number or a last sequence number in the manifest, or when a table
      is missing; the new log gets a number above those of the logs it found. */
  ghost predicate Openable(k: Disk, o: Opening) {
    && NamedLog(k.manifest).Some? && NamedLast(k.manifest).Some?
    && TablesThere(ManifestVersion(k), k.tables)
    && NamedLog(k.manifest).value < o.newLog && LogsBelow(k, NamedLog(k.manifest).value, o.newLog)
    && Joined(o.chunks) == Records(k, o.newLog)
    && MayReplay(FoundState(k), o.chunks, o.files)
  }

  /** The largest sequence number of the records. */
  function MaxSequence(bs: seq<Batch>): nat {
    if bs == [] then 0
    else
      var m, b := MaxSequence(bs[..|bs|-1]), bs[|bs|-1];
      if b.Next() > m + 1 then b.Next() - 1 else m
  }

  lemma {:induction false} MaxIsLast(bs: seq<Batch>, last: nat)
    requires Follow(bs, last)
    ensures MaxSequence(bs) == LastOf(bs)
  {
    if bs != [] {
      FollowInit(bs, last);
      MaxIsLast(bs[..|bs|-1], last);
    }
  }

  datatype Opened = Opened(version: Version, lastSequence: nat, used: set<nat>, disk: Disk)

  /** Reads the manifest, replays the logs, and writes a new manifest: all files of the version it
      found, then one edit with the tables that the replay wrote, the new log and the last sequence number. */
  ghost function Open(k: Disk, o: Opening): Opened
    requires Openable(k, o)
  {
    var found, edit := FoundState(k), RecoveryEdit(o.files);
    var max, named := MaxSequence(Records(k, o.newLog)), NamedLast(k.manifest).value;
    var last := if named < max then max else named;
    var manifest := [Record(FileEdit({}, AllFiles(ManifestVersion(k), NUM_LEVELS)), None, None),
      Record(BareEdit(edit), Some(o.newLog), Some(last))];
    Opened(Edited(found.version, edit), last, found.used + AddedNumbers(edit),
           Disk(manifest, k.logs[o.newLog := LogFile([], 0)], Written(k.tables, o.files)))
  }

  /** The parts of an opened database that are in use. */
  ghost predicate OpensAlike(k: Disk, k': Disk, o: Opening) {
    && (Openable(k, o) <==> Openable(k', o))
    && (Openable(k, o) ==>
          && Records(k, o.newLog) == Records(k', o.newLog)
          && var a, b := Open(k, o), Open(k', o);
             a.version == b.version && a.lastSequence == b.lastSequence && a.used == b.used
               && a.disk.manifest == b.disk.manifest)
  }

  /** The two disks differ only in logs before the one in the manifest, in logs without records,
      and in tables that the manifest does not name. */
  ghost predicate SameNamed(k: Disk, k': Disk) {
    && k'.manifest == k.manifest
    && (NamedLog(k.manifest).Some? ==> forall n :: n >= NamedLog(k.manifest).value ==>
       BatchesAt(k.logs, n) == BatchesAt(k'.logs, n))
    && forall l, f :: 0 <= l < |ManifestVersion(k)| && f in ManifestVersion(k)[l] ==>
         (f.number in k.tables <==> f.number in k'.tables)
           && (f.number in k.tables ==> k.tables[f.number] == k'.tables[f.number])
  }

  /** Such differences make none to an open, provided its new log has a free number on both. */
  lemma SparedFiles(k: Disk, k': Disk, o: Opening)
    requires SameNamed(k, k')
    requires NamedLog(k.manifest).Some? ==>
             (LogsBelow(k, NamedLog(k.manifest).value, o.newLog) <==>
               LogsBelow(k', NamedLog(k.manifest).value, o.newLog))
    ensures OpensAlike(k, k', o)
  {
    hide MayReplay, Saved, Accumulated, NamedLog, NamedLast, Edited, Entered, MaxSequence, Written, LogsBelow;
    if NamedLog(k.manifest).Some? { SameRecords(k.logs, k'.logs, NamedLog(k.manifest).value, o.newLog); }
    if TablesThere(ManifestVersion(k), k.tables) {
      SameLoaded(ManifestVersion(k), k.tables, k'.tables);
      assert FoundState(k) == FoundState(k');
    }
  }

  lemma SameLoaded(v: Version, a: map<nat, FileMeta>, b: map<nat, FileMeta>)
    requires TablesThere(v, a)
    requires forall l, f :: 0 <= l < |v| && f in v[l] ==>
             (f.number in a <==> f.number in b) && (f.number in a ==> a[f.number] == b[f.number])
    ensures TablesThere(v, b) && Loaded(v, a) == Loaded(v, b)
  {
    forall l | 0 <= l < |v| ensures LoadedFiles(v[l], a) == LoadedFiles(v[l], b) {
      forall i | 0 <= i < |v[l]| ensures LoadedFiles(v[l], a)[i] == LoadedFiles(v[l], b)[i] { assert v[l][i] in v[l]; }
    }
  }

  /** An open that is cut short after it wrote tables, and perhaps its log, but before its manifest
      became the current one: the next open finds what this one found. */
  lemma InterruptedOpen(k: Disk, o: Opening, tables: map<nat, FileMeta>, o': Opening)
    requires Openable(k, o) && o.newLog < o'.newLog
    requires forall n :: n in FoundState(k).used ==>
             (n in tables <==> n in k.tables) && (n in tables ==> tables[n] == k.tables[n])
    ensures OpensAlike(k, Disk(k.manifest, k.logs[o.newLog := LogFile([], 0)], tables), o')
  {
    hide MayReplay, Saved, Accumulated;
    var k' := Disk(k.manifest, k.logs[o.newLog := LogFile([], 0)], tables);
    ManifestSize(k);
    forall l: nat, f: FileMeta | l < |ManifestVersion(k)| && f in ManifestVersion(k)[l]
      ensures f.number in FoundState(k).used {
      VersionEntered(Edits(k.manifest), l, f);
    }
    SparedFiles(k, k', o');
  }

  lemma ManifestSize(k: Disk)
    ensures |ManifestVersion(k)| == NUM_LEVELS
  {}

  /** What a version has on a level came there by an edit. */
  lemma VersionEntered(edits: seq<FileEdit>, l: nat, f: FileMeta)
    requires l < NUM_LEVELS && f in Saved(NO_FILES, Accumulated(edits))[l]
    ensures (l, f.number) in Entered(edits)
  {
    AccumulatedEntered(edits, l);
    var s := Accumulated(edits)[l];
    assert NO_FILES[l] == [];
    UndeletedFrom(Merge([], s.added), s.deleted, f);
  }

  lemma {:induction false} UndeletedFrom(fs: seq<FileMeta>, deleted: set<nat>, f: FileMeta)
    requires f in Undeleted(fs, deleted)
    ensures f in fs
  {
    if f != fs[0] { UndeletedFrom(fs[1..], deleted, f); }
  }

  /** A table that the manifest names cannot be spared. */
  lemma TableIsNeeded(k: Disk, l: nat, f: FileMeta, o: Opening)
    requires l < |ManifestVersion(k)| && f in ManifestVersion(k)[l]
    ensures !Openable(k.(tables := k.tables - {f.number}), o)
  {}

  // ----- crashes -----

  /** How many records each log keeps, and a record that was being written when it happened. */
  datatype Crash = Crash(kept: map<nat, nat>, inflight: seq<Batch>)

  /** A log keeps what was synced, and of the rest some first part. */
  ghost predicate Keeps(k: Disk, c: Crash) {
    forall n :: n in k.logs ==> n in c.kept && k.logs[n].synced <= c.kept[n] <= |k.logs[n].batches|
  }

  /** When only the process dies, the files keep everything. */
  ghost predicate ProcessOnly(k: Disk, c: Crash) {
    forall n :: n in k.logs ==> n in c.kept && c.kept[n] == |k.logs[n].batches|
  }

  function Remains(log: LogFile, kept: nat, more: seq<Batch>): LogFile
    requires kept <= |log.batches|
  {
    LogFile(log.batches[..kept] + more, kept + |more|)
  }

  ghost function AfterCrash(k: Disk, current: nat, c: Crash): Disk
    requires Keeps(k, c)
  {
    k.(logs := map n | n in k.logs :: Remains(k.logs[n], c.kept[n], if n == current then c.inflight else []))
  }
}
