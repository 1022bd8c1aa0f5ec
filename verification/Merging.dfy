/** The merge loop of a compaction: which entries survive, and how the output is cut into files. */
module Merging {
  import opened InternalKeys
  import opened Versions

  /** No file below the output level has `u` in its user-key range. */
  ghost predicate BaseLevel(v: Version, level: nat, u: UserKey) {
    forall i, f :: level + 2 <= i < |v| && f in v[i] ==> !InUserRange(f, u)
  }

  /** The moving state of one compaction. */
  class Progress {
    const level: nat
    const inputVersion: Version
    const grandparents: seq<FileMeta>
    const overlapLimit: nat
    const levelPtrs: array<nat>
    var grandparentIndex: nat
    var seenKey: bool
    var overlappedBytes: nat

    constructor (level: nat, inputVersion: Version, grandparents: seq<FileMeta>, overlapLimit: nat)
      requires WellFormed(inputVersion)
      ensures this.level == level && this.inputVersion == inputVersion
      ensures fresh(levelPtrs) && Valid()
      ensures forall u :: PassedOnly(u)
      ensures this.grandparents == grandparents && this.overlapLimit == overlapLimit && Scanned([], 0)
    {
      this.level, this.inputVersion := level, inputVersion;
      this.grandparents, this.overlapLimit := grandparents, overlapLimit;
      levelPtrs := new nat[NUM_LEVELS](_ => 0);
      grandparentIndex, seenKey, overlappedBytes := 0, false, 0;
    }

    ghost predicate Valid()
      reads this
    {
      && WellFormed(inputVersion)
      && levelPtrs.Length == NUM_LEVELS
      && grandparentIndex <= |grandparents|
    }

    /** The pointers have moved past files that end before `u` only. */
    ghost predicate PassedOnly(u: UserKey)
      requires Valid()
      reads this, levelPtrs
    {
      forall i :: level + 2 <= i < NUM_LEVELS ==> PassedOnlyAt(levelPtrs[i], i, u)
    }

    ghost predicate PassedOnlyAt(p: nat, i: nat, u: UserKey)
      requires WellFormed(inputVersion) && i < NUM_LEVELS
    {
      p <= |inputVersion[i]| && forall j :: 0 <= j < p ==> inputVersion[i][j].largest.user < u
    }

    lemma PassedLater(u: UserKey, w: UserKey)
      requires Valid() && u <= w && PassedOnly(u)
      ensures PassedOnly(w)
    {
      forall i | level + 2 <= i < NUM_LEVELS ensures PassedOnlyAt(levelPtrs[i], i, w) {
        assert PassedOnlyAt(levelPtrs[i], i, u);
      }
    }

    /** With nondecreasing keys the moving pointers give the answer of a full scan. */
    method IsBaseLevelForKey(u: UserKey) returns (b: bool)
      requires Valid() && PassedOnly(u)
      modifies levelPtrs
      ensures Valid() && PassedOnly(u)
      ensures b == BaseLevel(inputVersion, level, u)
    {
      var lvl := level + 2;
      while lvl < NUM_LEVELS
        invariant level + 2 <= lvl
        invariant PassedOnly(u)
        invariant forall i, f :: level + 2 <= i < lvl && i < NUM_LEVELS && f in inputVersion[i] ==> !InUserRange(f, u)
      {
        var files := inputVersion[lvl];
        assert PassedOnlyAt(levelPtrs[lvl], lvl, u);
        var p := levelPtrs[lvl];
        while p < |files| && u > files[p].largest.user
          invariant PassedOnlyAt(p, lvl, u)
        {
          p := p + 1;
        }
        assert forall i :: level + 2 <= i < NUM_LEVELS ==> PassedOnlyAt(levelPtrs[i], i, u);
        levelPtrs[lvl] := p;
        if p < |files| && u >= files[p].smallest.user {
          assert files[p] in inputVersion[lvl] && InUserRange(files[p], u);
          return false;
        }
        BetweenFiles(files, p, u);
        lvl := lvl + 1;
      }
      b := true;
    }

    /** The first `n` keys have been looked at for grandparents. */
    ghost predicate Scanned(input: seq<Entry>, n: nat)
      requires n <= |input|
      reads this
    {
      && (seenKey <==> n > 0)
      && grandparentIndex == (if n == 0 then 0 else PastIndex(grandparents, input[n-1].key))
      && overlappedBytes == (if n == 0 then 0 else BytesSinceCut(grandparents, overlapLimit, input, n - 1))
    }

    /** Whether the output should be cut before `key`: too many grandparent bytes passed. */
    method ShouldStopBefore(key: InternalKey) returns (stop: bool)
      requires Valid()
      modifies this
      ensures Valid()
      ensures old(grandparentIndex) <= grandparentIndex && seenKey
      ensures grandparentIndex < |grandparents| ==> !Less(grandparents[grandparentIndex].largest, key)
      ensures forall j :: old(grandparentIndex) <= j < grandparentIndex ==> Less(grandparents[j].largest, key)
      ensures var passed := old(overlappedBytes)
                + if old(seenKey) then TotalFileSize(grandparents[old(grandparentIndex)..grandparentIndex]) else 0;
              stop == (passed > overlapLimit) && overlappedBytes == if stop then 0 else passed
    {
      while grandparentIndex < |grandparents| && Less(grandparents[grandparentIndex].largest, key)
        invariant old(grandparentIndex) <= grandparentIndex <= |grandparents|
        invariant seenKey == old(seenKey)
        invariant forall j :: old(grandparentIndex) <= j < grandparentIndex ==> Less(grandparents[j].largest, key)
        invariant overlappedBytes == old(overlappedBytes)
                + if seenKey then TotalFileSize(grandparents[old(grandparentIndex)..grandparentIndex]) else 0
      {
        TotalFileSizeSnoc(grandparents[old(grandparentIndex)..grandparentIndex], grandparents[grandparentIndex]);
        assert grandparents[old(grandparentIndex)..grandparentIndex + 1]
            == grandparents[old(grandparentIndex)..grandparentIndex] + [grandparents[grandparentIndex]];
        if seenKey {
          overlappedBytes := overlappedBytes + grandparents[grandparentIndex].size;
        }
        grandparentIndex := grandparentIndex + 1;
      }
      seenKey := true;
      stop := overlappedBytes > overlapLimit;
      if stop { overlappedBytes := 0; }
    }
  }

  lemma BetweenFiles(files: seq<FileMeta>, p: nat, u: UserKey)
    requires AllValid(files) && Ordered(files) && p <= |files|
    requires forall j :: 0 <= j < p ==> files[j].largest.user < u
    requires p < |files| ==> u < files[p].smallest.user
    ensures forall f :: f in files ==> !InUserRange(f, u)
  {
    forall f | f in files ensures !InUserRange(f, u) {
      var j :| 0 <= j < |files| && files[j] == f;
      if p < j { FileSpan(files[p]); FileSpan(f); assert Less(files[p].largest, files[j].smallest); }
    }
  }

  // ----- where the output is cut -----

  /** How many grandparents at the front end before `key`. */
  ghost function PastIndex(files: seq<FileMeta>, key: InternalKey): (p: nat)
    ensures p <= |files| && (forall j :: 0 <= j < p ==> Less(files[j].largest, key))
    ensures p < |files| ==> !Less(files[p].largest, key)
  {
    if files == [] || !Less(files[0].largest, key) then 0 else 1 + PastIndex(files[1..], key)
  }

  /** The bytes of the grandparents that end between the two keys. */
  ghost function BytesBetween(files: seq<FileMeta>, a: InternalKey, b: InternalKey): nat {
    var p, q := PastIndex(files, a), PastIndex(files, b);
    if p <= q then TotalFileSize(files[p..q]) else 0
  }

  /** The last entry up to `i` before which the output is cut, or the first one: a cut comes where
      the grandparents that end between the cut before it and an entry have more bytes than the limit. */
  ghost function LastCut(files: seq<FileMeta>, limit: nat, input: seq<Entry>, i: nat): (c: nat)
    requires i < |input|
    ensures c <= i
  {
    if i == 0 then 0
    else
      var c := LastCut(files, limit, input, i - 1);
      if BytesBetween(files, input[c].key, input[i].key) > limit then i else c
  }

  ghost function BytesSinceCut(files: seq<FileMeta>, limit: nat, input: seq<Entry>, i: nat): nat
    requires i < |input|
  {
    BytesBetween(files, input[LastCut(files, limit, input, i)].key, input[i].key)
  }

  ghost predicate IsCut(files: seq<FileMeta>, limit: nat, input: seq<Entry>, i: nat)
    requires i < |input|
  {
    i > 0 && LastCut(files, limit, input, i) == i
  }

  /** The keys before which the output is cut. */
  ghost function CutKeys(files: seq<FileMeta>, limit: nat, input: seq<Entry>, n: nat): seq<InternalKey>
    requires n <= |input|
  {
    if n == 0 then []
    else CutKeys(files, limit, input, n - 1) + if IsCut(files, limit, input, n - 1) then [input[n-1].key] else []
  }

  lemma PastIsUnique(files: seq<FileMeta>, key: InternalKey, p: nat)
    requires p <= |files| && (forall j :: 0 <= j < p ==> Less(files[j].largest, key))
    requires p < |files| ==> !Less(files[p].largest, key)
    ensures p == PastIndex(files, key)
  {
    var q := PastIndex(files, key);
    if q < |files| { assert !Less(files[q].largest, key); }
  }

  lemma PastGrows(files: seq<FileMeta>, a: InternalKey, b: InternalKey)
    requires Less(a, b)
    ensures PastIndex(files, a) <= PastIndex(files, b)
  {
    var q := PastIndex(files, b);
    if q < |files| { assert !Less(files[q].largest, b); }
  }

  lemma NextIsPast(files: seq<FileMeta>, input: seq<Entry>, i: nat, before: nat, p: nat)
    requires Sorted(input) && i < |input| && before == (if i == 0 then 0 else PastIndex(files, input[i-1].key))
    requires before <= p <= |files| && (forall j :: before <= j < p ==> Less(files[j].largest, input[i].key))
    requires p < |files| ==> !Less(files[p].largest, input[i].key)
    ensures p == PastIndex(files, input[i].key)
  {
    if i > 0 { assert Less(input[i-1].key, input[i].key); }
    PastIsUnique(files, input[i].key, p);
  }

  lemma {:induction false} TotalConcat(a: seq<FileMeta>, b: seq<FileMeta>)
    ensures TotalFileSize(a + b) == TotalFileSize(a) + TotalFileSize(b)
  {
    if a == [] {
      assert a + b == b;
    } else {
      assert (a + b)[1..] == a[1..] + b;
      TotalConcat(a[1..], b);
    }
  }

  /** The bytes since the last cut grow by those of the grandparents passed since the entry before. */
  lemma BytesGrow(files: seq<FileMeta>, limit: nat, input: seq<Entry>, i: nat)
    requires Sorted(input) && 0 < i < |input|
    ensures var p, q := PastIndex(files, input[i-1].key), PastIndex(files, input[i].key);
            var passed := BytesSinceCut(files, limit, input, i - 1) + if p <= q then TotalFileSize(files[p..q]) else 0;
            && (IsCut(files, limit, input, i) <==> passed > limit)
            && BytesSinceCut(files, limit, input, i) == if passed > limit then 0 else passed
  {
    hide PastIndex;
    var c := LastCut(files, limit, input, i - 1);
    var o, p, q := PastIndex(files, input[c].key), PastIndex(files, input[i-1].key), PastIndex(files, input[i].key);
    assert Less(input[i-1].key, input[i].key);
    PastGrows(files, input[i-1].key, input[i].key);
    if c < i - 1 { PastGrows(files, input[c].key, input[i-1].key); }
    PastBounds(files, input[i].key);
    assert files[o..q] == files[o..p] + files[p..q];
    TotalConcat(files[o..p], files[p..q]);
  }

  lemma PastBounds(files: seq<FileMeta>, key: InternalKey)
    ensures PastIndex(files, key) <= |files|
  {}

  // ----- the drop rule -----

  /** Rule (A): the entry before it is a version of the same key that every snapshot sees. */
  predicate Shadowed(input: seq<Entry>, i: nat, snapshot: nat)
    requires i < |input|
  {
    i > 0 && input[i-1].key.user == input[i].key.user && input[i-1].key.sequence <= snapshot
  }

  /** A deletion that every snapshot sees and that hides nothing below the output level. */
  ghost predicate Obsolete(e: Entry, snapshot: nat, v: Version, level: nat) {
    e.key.kind == TypeDeletion && e.key.sequence <= snapshot && BaseLevel(v, level, e.key.user)
  }

  /** What is left of the first `n` entries of `input`. */
  ghost function Kept(input: seq<Entry>, n: nat, snapshot: nat, v: Version, level: nat): seq<Entry>
    requires n <= |input|
  {
    if n == 0 then []
    else
      Kept(input, n - 1, snapshot, v, level)
      + if Shadowed(input, n - 1, snapshot) || Obsolete(input[n-1], snapshot, v, level) then [] else [input[n-1]]
  }

  function Flatten(files: seq<FileMeta>): seq<Entry> {
    if files == [] then [] else Flatten(files[..|files|-1]) + files[|files|-1].entries
  }

  lemma FlattenSnoc(files: seq<FileMeta>, f: FileMeta)
    ensures Flatten(files + [f]) == Flatten(files) + f.entries
  {
    assert (files + [f])[..|files|] == files;
  }

  /** The metadata a finished output file gets. */
  ghost predicate Labelled(f: FileMeta) {
    f.entries != [] && f.smallest == f.entries[0].key && f.largest == f.entries[|f.entries|-1].key
  }

  ghost predicate Numbered(outputs: seq<FileMeta>, alloc: nat -> nat) {
    forall k :: 0 <= k < |outputs| ==> Labelled(outputs[k]) && outputs[k].number == alloc(k)
  }

  ghost predicate Sized(outputs: seq<FileMeta>, size: seq<Entry> -> nat) {
    forall k :: 0 <= k < |outputs| ==> outputs[k].size == size(outputs[k].entries)
  }

  /** No file spans a cut. */
  ghost predicate NoneSpans(files: seq<FileMeta>, cuts: seq<InternalKey>) {
    forall f, c :: f in files && c in cuts ==> Less(f.largest, c) || !Less(f.smallest, c)
  }

  /** Before its last entry came, `es` was below the limit. */
  ghost predicate Filling(es: seq<Entry>, limit: nat, size: seq<Entry> -> nat) {
    forall n :: 0 < n < |es| ==> size(es[..n]) < limit
  }

  /** `f` is full, or a cut comes between it and what follows from `next` on. */
  ghost predicate EndsWell(f: FileMeta, next: InternalKey, cuts: seq<InternalKey>, limit: nat,
                           size: seq<Entry> -> nat) {
    size(f.entries) >= limit || exists c :: c in cuts && Less(f.largest, c) && !Less(next, c)
  }

  /** The files end exactly where they are full or a cut comes. */
  ghost predicate CutWell(files: seq<FileMeta>, cuts: seq<InternalKey>, limit: nat, size: seq<Entry> -> nat) {
    && NoneSpans(files, cuts)
    && (forall f :: f in files ==> Filling(f.entries, limit, size))
    && forall k :: 0 < k < |files| ==> EndsWell(files[k-1], files[k].smallest, cuts, limit, size)
  }

  /** The finished output files and the entries of the one being built. */
  datatype Output = Output(files: seq<FileMeta>, builder: seq<Entry>) {
    function Produced(): seq<Entry> { Flatten(files) + builder }
  }

  method FinishOutput(out: Output, alloc: nat -> nat, size: seq<Entry> -> nat) returns (r: Output)
    requires Numbered(out.files, alloc) && Sized(out.files, size)
    ensures Numbered(r.files, alloc) && Sized(r.files, size) && r.builder == [] && r.Produced() == out.Produced()
    ensures Finished(out, r)
  {
    var es := out.builder;
    if es == [] { return out; }
    var f := FileMeta(alloc(|out.files|), size(es), es[0].key, es[|es|-1].key, es);
    FlattenSnoc(out.files, f);
    r := Output(out.files + [f], []);
    assert r.files[..|out.files|] == out.files;
  }

  ghost predicate Finished(out: Output, r: Output) {
    if out.builder == [] then r.files == out.files
    else
      && |r.files| == |out.files| + 1 && r.files[..|out.files|] == out.files
      && Labelled(r.files[|out.files|]) && r.files[|out.files|].entries == out.builder
  }

  method AddEntry(out: Output, e: Entry, limit: nat, alloc: nat -> nat, size: seq<Entry> -> nat,
                  ghost cuts: seq<InternalKey>) returns (r: Output)
    requires Numbered(out.files, alloc) && Sized(out.files, size) && Building(out, cuts, Some(e.key), limit, size)
    ensures Numbered(r.files, alloc) && Sized(r.files, size) && r.Produced() == out.Produced() + [e]
    ensures Building(r, cuts, Some(e.key), limit, size)
  {
    hide Numbered, Sized, Building, Finished;
    r := out.(builder := out.builder + [e]);
    assert r.Produced() == out.Produced() + [e];
    ghost var full := r;
    if size(r.builder) >= limit { r := FinishOutput(r, alloc, size); }
    OneEntryMore(out, full, r, cuts, e, limit, size);
  }

  // ----- the cuts -----

  /** `f` is full, or a cut comes after it. */
  ghost predicate Ended(f: FileMeta, cuts: seq<InternalKey>, limit: nat, size: seq<Entry> -> nat) {
    size(f.entries) >= limit || exists c :: c in cuts && Less(f.largest, c)
  }

  /** The keys up to `last` have been dealt with. */
  ghost predicate Building(out: Output, cuts: seq<InternalKey>, last: Option<InternalKey>, limit: nat,
                           size: seq<Entry> -> nat) {
    && CutWell(out.files, cuts, limit, size)
    && (forall f :: f in out.files ==> last.Some? && !Less(last.value, f.largest))
    && (forall e :: e in out.builder ==> last.Some? && !Less(last.value, e.key))
    && (forall c :: c in cuts ==> last.Some? && !Less(last.value, c))
    && (forall e, c :: e in out.builder && c in cuts ==> !Less(e.key, c))
    && (forall n :: 0 < n <= |out.builder| ==> size(out.builder[..n]) < limit)
    && (out.files != [] ==> Ended(out.files[|out.files|-1], cuts, limit, size))
  }


  /** One file more. */
  lemma FileCutWell(files: seq<FileMeta>, f: FileMeta, cuts: seq<InternalKey>, limit: nat, size: seq<Entry> -> nat)
    requires CutWell(files, cuts, limit, size) && (files != [] ==> Ended(files[|files|-1], cuts, limit, size))
    requires Filling(f.entries, limit, size) && forall c :: c in cuts ==> !Less(f.smallest, c)
    ensures CutWell(files + [f], cuts, limit, size)
  {
    hide Filling;
    var all := files + [f];
    forall k | 0 < k < |all| ensures EndsWell(all[k-1], all[k].smallest, cuts, limit, size) {
      if k < |files| { assert EndsWell(files[k-1], files[k].smallest, cuts, limit, size); }
    }
  }

  /** The file being built ends. */
  lemma FinishWell(out: Output, r: Output, cuts: seq<InternalKey>, limit: nat, size: seq<Entry> -> nat)
    requires Finished(out, r) && CutWell(out.files, cuts, limit, size)
    requires out.files != [] ==> Ended(out.files[|out.files|-1], cuts, limit, size)
    requires Filling(out.builder, limit, size) && forall e, c :: e in out.builder && c in cuts ==> !Less(e.key, c)
    ensures CutWell(r.files, cuts, limit, size)
  {
    hide CutWell, Ended, Filling;
    if out.builder != [] {
      var f := r.files[|out.files|];
      assert out.builder[0] in out.builder && r.files == out.files + [f];
      FileCutWell(out.files, f, cuts, limit, size);
    }
  }

  lemma OneEntryMore(out: Output, full: Output, r: Output, cuts: seq<InternalKey>, e: Entry, limit: nat,
                     size: seq<Entry> -> nat)
    requires Building(out, cuts, Some(e.key), limit, size) && full == out.(builder := out.builder + [e])
    requires if size(full.builder) >= limit then Finished(full, r) && r.builder == [] else r == full
    ensures Building(r, cuts, Some(e.key), limit, size)
  {
    hide CutWell;
    var es := full.builder;
    forall n | 0 < n <= |es| ensures n < |es| ==> size(es[..n]) < limit {
      if n < |es| { assert es[..n] == out.builder[..n]; }
    }
    if size(es) >= limit {
      FinishWell(full, r, cuts, limit, size);
      assert r.files == out.files + [r.files[|out.files|]] && es[|es|-1] == e;
    } else {
      assert es[..|es|] == es;
    }
  }

  /** A cut, or none, before the next key. */
  lemma NextKey(out: Output, r: Output, cuts: seq<InternalKey>, last: Option<InternalKey>, k: InternalKey, stop: bool,
                limit: nat, size: seq<Entry> -> nat)
    requires Building(out, cuts, last, limit, size) && (last.Some? ==> Less(last.value, k))
    requires if stop then Finished(out, r) && r.builder == [] else r == out
    ensures Building(r, if stop then cuts + [k] else cuts, Some(k), limit, size)
  {
    hide CutWell, Ended;
    if stop {
      FinishWell(out, r, cuts, limit, size);
      FilesBefore(out, r, k);
      MoreCuts(r.files, cuts, k, limit, size);
    }
  }

  lemma FilesBefore(out: Output, r: Output, k: InternalKey)
    requires Finished(out, r) && (forall f :: f in out.files ==> Less(f.largest, k))
    requires forall e :: e in out.builder ==> Less(e.key, k)
    ensures forall f :: f in r.files ==> Less(f.largest, k)
  {
    if out.builder != [] {
      assert out.builder[|out.builder|-1] in out.builder && r.files == out.files + [r.files[|out.files|]];
    }
  }

  /** A cut after all files. */
  lemma MoreCuts(files: seq<FileMeta>, cuts: seq<InternalKey>, k: InternalKey, limit: nat, size: seq<Entry> -> nat)
    requires CutWell(files, cuts, limit, size) && forall f :: f in files ==> Less(f.largest, k)
    ensures CutWell(files, cuts + [k], limit, size)
    ensures files != [] ==> Ended(files[|files|-1], cuts + [k], limit, size)
  {
    hide Filling;
    forall j | 0 < j < |files| ensures EndsWell(files[j-1], files[j].smallest, cuts + [k], limit, size) {
      assert EndsWell(files[j-1], files[j].smallest, cuts, limit, size);
    }
    if files != [] { assert k in cuts + [k]; }
  }

  /** Whether entry `i` is dropped; `last` is the sequence number of the entry before it if
      that has the same user key, and the maximum otherwise. */
  method DropEntry(c: Progress, input: seq<Entry>, i: nat, last: nat, snapshot: nat) returns (drop: bool)
    requires c.Valid() && i < |input| && snapshot < MAX_SEQUENCE && c.PassedOnly(input[i].key.user)
    requires last == if i > 0 && input[i-1].key.user == input[i].key.user then input[i-1].key.sequence else MAX_SEQUENCE
    modifies c.levelPtrs
    ensures c.PassedOnly(input[i].key.user)
    ensures drop == (Shadowed(input, i, snapshot) || Obsolete(input[i], snapshot, c.inputVersion, c.level))
  {
    drop := false;
    if last <= snapshot {
      drop := true;
    } else if input[i].key.kind == TypeDeletion && input[i].key.sequence <= snapshot {
      drop := c.IsBaseLevelForKey(input[i].key.user);
    }
  }

  /** The merge. `input` is what the merging iterator over the inputs yields; `alloc(k)` is
      the number handed out for the k-th output file; `size` is the size a table file has. */
  method DoCompactionWork(c: Progress, input: seq<Entry>, snapshot: nat, maxOutputFileSize: nat,
                          alloc: nat -> nat, size: seq<Entry> -> nat) returns (outputs: seq<FileMeta>)
    requires c.Valid() && (forall u :: c.PassedOnly(u)) && c.Scanned([], 0)
    requires Sorted(input) && snapshot < MAX_SEQUENCE
    modifies c, c.levelPtrs
    ensures Flatten(outputs) == Kept(input, |input|, snapshot, c.inputVersion, c.level)
    ensures Numbered(outputs, alloc) && Sized(outputs, size)
    ensures CutWell(outputs, CutKeys(c.grandparents, c.overlapLimit, input, |input|), maxOutputFileSize, size)
  {
    hide CutWell, Building, Finished, Progress.Scanned, CutKeys, IsCut, Numbered, Sized, Kept;
    var out := Output([], []);
    var currentUserKey: Option<UserKey> := None;
    var lastSequenceForKey := MAX_SEQUENCE;
    var i := 0;
    WorkStarts(c, input, snapshot, maxOutputFileSize, alloc, size);
    while i < |input|
      invariant 0 <= i <= |input|
      invariant c.Valid() && c.Scanned(input, i)
      invariant i < |input| ==> c.PassedOnly(input[i].key.user)
      invariant i == 0 ==> currentUserKey == None
      invariant i > 0 ==> currentUserKey == Some(input[i-1].key.user) && lastSequenceForKey == input[i-1].key.sequence
      invariant out.Produced() == Kept(input, i, snapshot, c.inputVersion, c.level)
      invariant Numbered(out.files, alloc) && Sized(out.files, size)
      invariant Building(out, CutKeys(c.grandparents, c.overlapLimit, input, i), LastKey(input, i), maxOutputFileSize,
                size)
    {
      var e := input[i];
      ghost var before := out;
      ghost var cuts := CutKeys(c.grandparents, c.overlapLimit, input, i);
      var stop := CutBefore(c, input, i);
      if stop { out := FinishOutput(out, alloc, size); }
      NextKey(before, out, cuts, LastKey(input, i), e.key, stop, maxOutputFileSize, size);
      OneCutMore(c.grandparents, c.overlapLimit, input, i);
      cuts := CutKeys(c.grandparents, c.overlapLimit, input, i + 1);
      if currentUserKey != Some(e.key.user) {
        currentUserKey := Some(e.key.user);
        lastSequenceForKey := MAX_SEQUENCE;
      }
      var drop := DropEntry(c, input, i, lastSequenceForKey, snapshot);
      lastSequenceForKey := e.key.sequence;
      if !drop { out := AddEntry(out, e, maxOutputFileSize, alloc, size, cuts); }
      OneMoreKept(input, i, snapshot, c.inputVersion, c.level);
      i := i + 1;
      if i < |input| {
        assert Less(input[i-1].key, input[i].key);
        c.PassedLater(input[i-1].key.user, input[i].key.user);
      }
    }
    ghost var last := out;
    out := FinishOutput(out, alloc, size);
    WorkEnds(last, out, CutKeys(c.grandparents, c.overlapLimit, input, |input|), LastKey(input, |input|),
      maxOutputFileSize, size);
    outputs := out.files;
    FilesOnly(out);
  }

  /** Whether the output is cut before the next key. */
  method CutBefore(c: Progress, input: seq<Entry>, i: nat) returns (stop: bool)
    requires c.Valid() && Sorted(input) && i < |input| && c.Scanned(input, i)
    modifies c
    ensures c.Valid() && c.Scanned(input, i + 1) && stop == IsCut(c.grandparents, c.overlapLimit, input, i)
  {
    ghost var index := c.grandparentIndex;
    stop := c.ShouldStopBefore(input[i].key);
    NextIsPast(c.grandparents, input, i, index, c.grandparentIndex);
    if i > 0 {
      assert index <= c.grandparentIndex;
      BytesGrow(c.grandparents, c.overlapLimit, input, i);
    }
  }

  ghost function LastKey(input: seq<Entry>, n: nat): Option<InternalKey>
    requires n <= |input|
  {
    if n == 0 then None else Some(input[n-1].key)
  }

  lemma WorkStarts(c: Progress, input: seq<Entry>, snapshot: nat, limit: nat, alloc: nat -> nat,
                   size: seq<Entry> -> nat)
    requires c.Scanned([], 0)
    ensures c.Scanned(input, 0) && CutKeys(c.grandparents, c.overlapLimit, input, 0) == []
    ensures Building(Output([], []), [], None, limit, size) && Numbered([], alloc) && Sized([], size)
    ensures Kept(input, 0, snapshot, c.inputVersion, c.level) == [] == Output([], []).Produced()
  {}

  lemma OneCutMore(files: seq<FileMeta>, limit: nat, input: seq<Entry>, i: nat)
    requires i < |input|
    ensures var cuts := CutKeys(files, limit, input, i);
            CutKeys(files, limit, input, i + 1) == if IsCut(files, limit, input, i) then cuts + [input[i].key] else cuts
  {}

  lemma OneMoreKept(input: seq<Entry>, i: nat, snapshot: nat, v: Version, level: nat)
    requires i < |input|
    ensures Kept(input, i + 1, snapshot, v, level)
         == Kept(input, i, snapshot, v, level)
            + if Shadowed(input, i, snapshot) || Obsolete(input[i], snapshot, v, level) then [] else [input[i]]
  {}

  lemma WorkEnds(out: Output, r: Output, cuts: seq<InternalKey>, last: Option<InternalKey>, limit: nat,
                 size: seq<Entry> -> nat)
    requires Building(out, cuts, last, limit, size) && Finished(out, r)
    ensures CutWell(r.files, cuts, limit, size)
  {
    FinishWell(out, r, cuts, limit, size);
  }

  lemma FilesOnly(out: Output)
    requires out.builder == []
    ensures out.Produced() == Flatten(out.files)
  {}
}
