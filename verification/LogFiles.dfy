/** The bytes of the write-ahead logs: a crash that cuts them off anywhere behind their synced part
    is one of the crashes that recovery is proved for. */
module LogFiles {
  import opened InternalKeys
  import opened Coding
  import opened Engine
  import opened Batches
  import opened Logs
  import opened LogReaders
  import opened TornLogs
  import opened Disks
  import WriteBatches

  // ----- a batch as the data of one log record -----

  /** The bytes of user keys, and the way back. */
  datatype KeyCodec = KeyCodec(bytes: UserKey -> Bytes, key: Bytes -> UserKey)

  function EncodeOp(k: KeyCodec, op: Op): WriteBatches.BatchOp {
    if op.kind == TypeValue then WriteBatches.Put(k.bytes(op.user), op.value) else WriteBatches.Delete(k.bytes(op.user))
  }

  function DecodeOp(k: KeyCodec, op: WriteBatches.BatchOp): Op {
    match op
    case Put(key, value) => Op(k.key(key), TypeValue, value)
    case Delete(key) => Op(k.key(key), TypeDeletion, [])
  }

  function EncodeOps(k: KeyCodec, ops: seq<Op>): (r: seq<WriteBatches.BatchOp>)
    ensures |r| == |ops| && forall i :: 0 <= i < |ops| ==> r[i] == EncodeOp(k, ops[i])
  {
    if ops == [] then [] else EncodeOps(k, ops[..|ops|-1]) + [EncodeOp(k, ops[|ops|-1])]
  }

  function DecodeOps(k: KeyCodec, ops: seq<WriteBatches.BatchOp>): (r: seq<Op>)
    ensures |r| == |ops| && forall i :: 0 <= i < |ops| ==> r[i] == DecodeOp(k, ops[i])
  {
    if ops == [] then [] else DecodeOps(k, ops[..|ops|-1]) + [DecodeOp(k, ops[|ops|-1])]
  }

  function RecordOf(k: KeyCodec, b: Batch): Bytes { WriteBatches.Rep(b.first, EncodeOps(k, b.ops)) }

  /** What recovery reads out of a record: the first sequence number and the operations. */
  function BatchIn(k: KeyCodec, record: Bytes): Option<(nat, seq<Op>)> {
    if |record| < WriteBatches.HEADER then None
    else
      var parsed := WriteBatches.Parse(record[WriteBatches.HEADER..]);
      if parsed.1 && |parsed.0| == Unfixed(record[8..12]) then Some((Unfixed(record[..8]), DecodeOps(k, parsed.0)))
        else None
  }

  /** Lengths and numbers that the format can hold; a deletion has no value. */
  ghost predicate Storable(k: KeyCodec, b: Batch) {
    && b.first < W64 && |b.ops| < W32
    && forall op :: op in b.ops ==>
         && |k.bytes(op.user)| < W32 && |op.value| < W32 && k.key(k.bytes(op.user)) == op.user
         && (op.kind == TypeDeletion ==> op.value == [])
  }

  lemma RecordRoundTrip(k: KeyCodec, b: Batch)
    requires Storable(k, b)
    ensures BatchIn(k, RecordOf(k, b)) == Some((b.first, b.ops))
  {
    hide WriteBatches.Rep, WriteBatches.Parse, Unfixed;
    var ops := EncodeOps(k, b.ops);
    forall op | op in ops ensures WriteBatches.IsOp(op) {
      var i :| 0 <= i < |ops| && ops[i] == op;
      assert b.ops[i] in b.ops;
    }
    WriteBatches.BatchRoundTrip(b.first, ops);
    OpsRoundTrip(k, b);
  }

  lemma OpsRoundTrip(k: KeyCodec, b: Batch)
    requires Storable(k, b)
    ensures DecodeOps(k, EncodeOps(k, b.ops)) == b.ops
  {
    forall i | 0 <= i < |b.ops| ensures DecodeOps(k, EncodeOps(k, b.ops))[i] == b.ops[i] {
      assert b.ops[i] in b.ops;
    }
  }

  function RecordsOf(k: KeyCodec, bs: seq<Batch>): (r: seq<Bytes>)
    ensures |r| == |bs| && forall i :: 0 <= i < |bs| ==> r[i] == RecordOf(k, bs[i])
  {
    if bs == [] then [] else RecordsOf(k, bs[..|bs|-1]) + [RecordOf(k, bs[|bs|-1])]
  }

  lemma RecordsOfPrefix(k: KeyCodec, bs: seq<Batch>, n: nat)
    requires n <= |bs|
    ensures RecordsOf(k, bs)[..n] == RecordsOf(k, bs[..n])
  {}

  // ----- one log file -----

  function FileOf(c: Checksum, k: KeyCodec, bs: seq<Batch>): Bytes { Log(c, RecordsOf(k, bs)) }

  /** `file` reads back as exactly the batches `bs`, and nothing in it is reported. */
  ghost predicate ReadsAs(c: Checksum, k: KeyCodec, file: Bytes, bs: seq<Batch>) {
    ReadAll(c, file, START) == (RecordsOf(k, bs), [])
  }

  /** A file that is cut off behind its first `synced` batches reads back as the first few
      batches, those among them. */
  lemma CutKeepsPrefix(c: Checksum, k: KeyCodec, bs: seq<Batch>, synced: nat, n: nat) returns (kept: nat)
    requires synced <= |bs| && |FileOf(c, k, bs[..synced])| <= n <= |FileOf(c, k, bs)|
    ensures synced <= kept <= |bs| && ReadsAs(c, k, FileOf(c, k, bs)[..n], bs[..kept])
    ensures n == |FileOf(c, k, bs)| ==> kept == |bs|
  {
    hide Log, ReadAll, Complete, RecordOf;
    var records := RecordsOf(k, bs);
    kept := Complete(c, records, n);
    TornLogReadsCompleteRecords(c, records, n);
    RecordsOfPrefix(k, bs, synced);
    RecordsOfPrefix(k, bs, kept);
    CompleteIff(c, records, n, synced);
    assert records[..|records|] == records;
    CompleteIff(c, records, n, |bs|);
  }

  /** And every number of batches from the synced ones on is what some cut leaves. */
  lemma EveryPrefixIsCut(c: Checksum, k: KeyCodec, bs: seq<Batch>, synced: nat, kept: nat) returns (n: nat)
    requires synced <= kept <= |bs|
    ensures |FileOf(c, k, bs[..synced])| <= n <= |FileOf(c, k, bs)| && ReadsAs(c, k, FileOf(c, k, bs)[..n], bs[..kept])
  {
    hide Log, ReadAll, Complete, RecordOf, Emitted;
    var records := RecordsOf(k, bs);
    n := Start(c, records, kept);
    RecordsOfPrefix(k, bs, synced);
    RecordsOfPrefix(k, bs, kept);
    assert records[..|records|] == records;
    StartsGrow(c, records, synced, kept);
    StartsGrow(c, records, kept, |bs|);
    TornLogReadsCompleteRecords(c, records, n);
    CompleteIff(c, records, n, kept);
    if kept < |bs| {
      CompleteIff(c, records, n, kept + 1);
      RecordAt(c, records, kept);
      EmittedIsNotEmpty(c, n % BLOCK_SIZE, records[kept]);
    }
  }

  lemma EmittedIsNotEmpty(c: Checksum, block: nat, data: Bytes)
    requires block < BLOCK_SIZE
    ensures Emitted(c, block, data, true) != []
  {
    hide Fixed;
  }

  // ----- all log files -----

  /** What is on its way into log `n` when the process stops. */
  function Written(k: Disk, current: nat, writing: seq<Batch>, n: nat): seq<Batch>
    requires n in k.logs
  {
    k.logs[n].batches + if n == current then writing else []
  }

  /** Every log is cut off somewhere behind its synced batches. */
  ghost predicate CutsOk(c: Checksum, codec: KeyCodec, k: Disk, current: nat, writing: seq<Batch>, cut: map<nat, nat>) {
    forall n :: n in k.logs ==>
      && k.logs[n].synced <= |k.logs[n].batches| && n in cut
      && |FileOf(c, codec, k.logs[n].batches[..k.logs[n].synced])| <= cut[n] <= |FileOf(c, codec,
         Written(k, current, writing, n))|
  }

  ghost predicate LeavesLog(c: Checksum, codec: KeyCodec, k: Disk, current: nat, writing: seq<Batch>,
                            cut: map<nat, nat>, kept: nat, n: nat)
    requires n in k.logs && n in cut && cut[n] <= |FileOf(c, codec, Written(k, current, writing, n))|
  {
    var all := Written(k, current, writing, n);
    k.logs[n].synced <= kept <= |all| && ReadsAs(c, codec, FileOf(c, codec, all)[..cut[n]], all[..kept])
  }

  lemma OneLogLeft(c: Checksum, codec: KeyCodec, k: Disk, current: nat, writing: seq<Batch>, cut: map<nat, nat>, n: nat)
      returns (kept: nat)
    requires CutsOk(c, codec, k, current, writing, cut) && n in k.logs
    ensures n in cut && LeavesLog(c, codec, k, current, writing, cut, kept, n)
  {
    hide ReadsAs, FileOf;
    var all, synced := Written(k, current, writing, n), k.logs[n].synced;
    assert all[..synced] == k.logs[n].batches[..synced];
    kept := CutKeepsPrefix(c, codec, all, synced, cut[n]);
  }

  /** How many batches each log keeps. */
  lemma LogsLeft(c: Checksum, codec: KeyCodec, k: Disk, current: nat, writing: seq<Batch>, cut: map<nat, nat>,
                 names: set<nat>)
      returns (kept: map<nat, nat>)
    requires CutsOk(c, codec, k, current, writing, cut) && names <= k.logs.Keys
    ensures kept.Keys == names
    ensures forall n :: n in names ==> n in cut && LeavesLog(c, codec, k, current, writing, cut, kept[n], n)
    decreases names
  {
    hide LeavesLog, FileOf;
    if names == {} {
      kept := map[];
    } else {
      var n :| n in names;
      var rest := LogsLeft(c, codec, k, current, writing, cut, names - {n});
      var some := OneLogLeft(c, codec, k, current, writing, cut, n);
      kept := rest[n := some];
    }
  }

  /** A crash cuts every log off somewhere, also in the middle of the record that is being written.
      What can then be read is what a crash of whole batches leaves, and the unfinished batch is
      there only after all before it. */
  lemma CutsAreCrashes(c: Checksum, codec: KeyCodec, k: Disk, current: nat, writing: seq<Batch>, cut: map<nat, nat>)
      returns (crash: Crash)
    requires |writing| <= 1 && current in k.logs && CutsOk(c, codec, k, current, writing, cut)
    ensures Keeps(k, crash)
    ensures crash.inflight == [] || (crash.inflight == writing && crash.kept[current] == |k.logs[current].batches|)
    ensures forall n :: n in k.logs ==>
              ReadsAs(c, codec, FileOf(c, codec, Written(k, current, writing, n))[..cut[n]],
                AfterCrash(k, current, crash).logs[n].batches)
  {
    hide ReadsAs, FileOf;
    hide LeavesLog;
    var kept := LogsLeft(c, codec, k, current, writing, cut, k.logs.Keys);
    crash := CrashOf(k, current, writing, kept);
    forall n | n in k.logs
      ensures k.logs[n].synced <= crash.kept[n] <= |k.logs[n].batches|
      ensures ReadsAs(c, codec, FileOf(c, codec, Written(k, current, writing, n))[..cut[n]],
                      Remains(k.logs[n], crash.kept[n], if n == current then crash.inflight else []).batches)
    {
      LogOfCrash(c, codec, k, current, writing, cut, kept, n);
    }
  }

  function CrashOf(k: Disk, current: nat, writing: seq<Batch>, kept: map<nat, nat>): Crash
    requires kept.Keys == k.logs.Keys && current in k.logs
  {
    Crash(map n | n in k.logs :: if kept[n] <= |k.logs[n].batches| then kept[n] else |k.logs[n].batches|,
          if kept[current] <= |k.logs[current].batches| then [] else writing)
  }

  lemma LogOfCrash(c: Checksum, codec: KeyCodec, k: Disk, current: nat, writing: seq<Batch>, cut: map<nat, nat>,
                   kept: map<nat, nat>, n: nat)
    requires |writing| <= 1 && kept.Keys == k.logs.Keys && current in k.logs && n in k.logs
             && CutsOk(c, codec, k, current, writing, cut)
    requires n in cut && LeavesLog(c, codec, k, current, writing, cut, kept[n], n)
    ensures var crash := CrashOf(k, current, writing, kept);
            && k.logs[n].synced <= crash.kept[n] <= |k.logs[n].batches|
            && ReadsAs(c, codec, FileOf(c, codec, Written(k, current, writing, n))[..cut[n]],
                       Remains(k.logs[n], crash.kept[n], if n == current then crash.inflight else []).batches)
  {
    hide ReadsAs, FileOf;
    var crash := CrashOf(k, current, writing, kept);
    assert Remains(k.logs[n], crash.kept[n], if n == current then crash.inflight else []).batches
      == Written(k, current, writing, n)[..kept[n]];
  }
}
