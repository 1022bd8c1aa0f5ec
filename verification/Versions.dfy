/** Versions: seven levels of table files, and point lookups that stop at the first hit. */
module Versions {
  import opened InternalKeys

  const NUM_LEVELS: nat := 7

  /** A table file; `entries` is its content. */
  datatype FileMeta = FileMeta(number: nat, size: nat, smallest: InternalKey, largest: InternalKey, entries: seq<Entry>)

  type Version = seq<seq<FileMeta>>

  ghost predicate ValidFile(f: FileMeta) {
    && f.entries != []
    && Sorted(f.entries)
    && f.smallest == f.entries[0].key
    && f.largest == f.entries[|f.entries|-1].key
    && forall e :: e in f.entries ==> e.key.sequence <= MAX_SEQUENCE
  }

  /** Sorted and disjoint by internal key. */
  ghost predicate Ordered(fs: seq<FileMeta>) {
    forall i, j :: 0 <= i < j < |fs| ==> Less(fs[i].largest, fs[j].smallest)
  }

  /** Two files of level 0 with different numbers: the higher numbered one is newer. */
  ghost predicate NewestByNumber(fs: seq<FileMeta>) {
    forall f, g :: f in fs && g in fs && f.number > g.number ==> Newer(f.entries, g.entries)
  }

  /** For one user key, everything in `upper` is newer than everything in `lower`. */
  ghost predicate Above(upper: seq<FileMeta>, lower: seq<FileMeta>) {
    forall f, g :: f in upper && g in lower ==> Newer(f.entries, g.entries)
  }

  /** A file number names one file. */
  ghost predicate DistinctNumbers(v: Version) {
    && (forall i, f, g :: 0 <= i < |v| && f in v[i] && g in v[i] && f.number == g.number ==> f == g)
    && (forall i, j, f, g :: 0 <= i < j < |v| && f in v[i] && g in v[j] ==> f.number != g.number)
  }

  ghost predicate AllValid(files: seq<FileMeta>) {
    forall f :: f in files ==> ValidFile(f)
  }

  /** Levels 1 and up are sorted and disjoint. */
  ghost predicate WellFormed(v: Version) {
    && |v| == NUM_LEVELS
    && (forall i :: 0 <= i < |v| ==> AllValid(v[i]))
    && (forall i :: 1 <= i < |v| ==> Ordered(v[i]))
  }

  /** Well-formed, and for one user key the search order is from newest to oldest. */
  ghost predicate ValidVersion(v: Version) {
    && WellFormed(v)
    && DistinctNumbers(v)
    && NewestByNumber(v[0])
    && (forall i, j :: 0 <= i < j < |v| ==> Above(v[i], v[j]))
  }

  ghost function Contents(fs: seq<FileMeta>): (E: set<Entry>)
    ensures forall f, e :: f in fs && e in f.entries ==> e in E
    ensures forall e :: e in E ==> exists f :: f in fs && e in f.entries
  {
    set f, e | f in fs && e in f.entries :: e
  }

  ghost function EntriesOf(v: Version): (E: set<Entry>)
    ensures forall i, e :: 0 <= i < |v| && e in Contents(v[i]) ==> e in E
    ensures forall e :: e in E ==> exists i :: 0 <= i < |v| && e in Contents(v[i])
  {
    set i, e | 0 <= i < |v| && e in Contents(v[i]) :: e
  }

  function TotalFileSize(fs: seq<FileMeta>): nat {
    if fs == [] then 0 else fs[0].size + TotalFileSize(fs[1..])
  }

  lemma TotalFileSizeSnoc(fs: seq<FileMeta>, f: FileMeta)
    ensures TotalFileSize(fs + [f]) == TotalFileSize(fs) + f.size
  {
    if fs != [] { assert (fs + [f])[1..] == fs[1..] + [f]; }
  }

  predicate InUserRange(f: FileMeta, u: UserKey) {
    f.smallest.user <= u <= f.largest.user
  }

  lemma EntryInRange(f: FileMeta, e: Entry)
    requires ValidFile(f) && e in f.entries
    ensures !Less(e.key, f.smallest) && !Less(f.largest, e.key)
    ensures InUserRange(f, e.key.user)
  {
    var i :| 0 <= i < |f.entries| && f.entries[i] == e;
    if 0 < i { assert Less(f.entries[0].key, f.entries[i].key); }
    if i < |f.entries| - 1 { assert Less(f.entries[i].key, f.entries[|f.entries|-1].key); }
  }

  lemma FileSpan(f: FileMeta)
    requires ValidFile(f)
    ensures f.smallest == f.largest || Less(f.smallest, f.largest)
  {
    if |f.entries| > 1 { assert Less(f.entries[0].key, f.entries[|f.entries|-1].key); }
  }

  // ----- lookups -----

  datatype Saver = NotFound | Found(value: Bytes) | Deleted

  function Verdict(e: Entry): Saver {
    if e.key.kind == TypeValue then Found(e.value) else Deleted
  }

  function Answer(r: Saver): Option<Bytes> {
    if r.Found? then Some(r.value) else None
  }

  ghost predicate Unseen(E: set<Entry>, u: UserKey, s: nat) {
    forall e :: e in E ==> !Candidate(e, u, s)
  }

  /** `r` is right for a search of `E` only: the newest visible version, or nothing seen. */
  ghost predicate Decides(E: set<Entry>, u: UserKey, s: nat, r: Saver) {
    if r == NotFound then Unseen(E, u, s)
    else exists e :: Newest(E, u, s, e) && r == Verdict(e)
  }

  lemma DecidesIsRead(E: set<Entry>, u: UserKey, s: nat, r: Saver)
    requires UniqueVersions(E) && Decides(E, u, s, r)
    ensures Answer(r) == Read(E, u, s)
  {
    if r == NotFound {
      ReadNothing(E, u, s);
    } else {
      var e :| Newest(E, u, s, e) && r == Verdict(e);
      ReadNewest(E, u, s, e);
    }
  }

  /** What a table may hand to the saver for a lookup of (u, s): the newest visible
      version of `u` if the table has one, else nothing or an entry of another user key. */
  ghost predicate Delivers(es: seq<Entry>, u: UserKey, s: nat, hit: Option<Entry>) {
    if hit.Some? && hit.value.key.user == u then Newest(Elements(es), u, s, hit.value)
    else Unseen(Elements(es), u, s)
  }

  /** The files that end before `key` come first. */
  ghost predicate Partitioned(files: seq<FileMeta>, key: InternalKey) {
    forall i, j :: 0 <= i < j < |files| && Less(files[j].largest, key) ==> Less(files[i].largest, key)
  }

  lemma OrderedIsPartitioned(files: seq<FileMeta>, key: InternalKey)
    requires (forall i :: 0 <= i < |files| ==> ValidFile(files[i])) && Ordered(files)
    ensures Partitioned(files, key)
  {
    forall i, j | 0 <= i < j < |files| && Less(files[j].largest, key)
      ensures Less(files[i].largest, key) { FileSpan(files[j]); }
  }

  ghost predicate FirstAtOrPast(files: seq<FileMeta>, key: InternalKey, p: nat) {
    && p <= |files|
    && (forall i :: 0 <= i < p ==> Less(files[i].largest, key))
    && (forall i :: p <= i < |files| ==> !Less(files[i].largest, key))
  }

  /** The position of the first file whose largest key is at or after `key`. */
  method FindFile(files: seq<FileMeta>, key: InternalKey) returns (right: nat)
    requires Partitioned(files, key)
    ensures FirstAtOrPast(files, key, right)
  {
    var left := 0;
    right := |files|;
    while left < right
      invariant 0 <= left <= right <= |files|
      invariant forall i :: 0 <= i < left ==> Less(files[i].largest, key)
      invariant forall i :: right <= i < |files| ==> !Less(files[i].largest, key)
    {
      var mid := (left + right) / 2;
      if Less(files[mid].largest, key) { left := mid + 1; } else { right := mid; }
    }
  }

  /** Probes one table: the first entry at or after the seek key. */
  method TableGet(f: FileMeta, u: UserKey, s: nat) returns (hit: Option<Entry>)
    requires ValidFile(f)
    ensures Delivers(f.entries, u, s, hit)
  {
    var i := 0;
    while i < |f.entries| && Less(f.entries[i].key, SeekKey(u, s))
      invariant 0 <= i <= |f.entries|
      invariant forall j :: 0 <= j < i ==> Less(f.entries[j].key, SeekKey(u, s))
    {
      i := i + 1;
    }
    hit := if i < |f.entries| then Some(f.entries[i]) else None;
    FirstAtOrAfter(f.entries, i, u, s);
  }

  lemma FirstAtOrAfter(es: seq<Entry>, i: nat, u: UserKey, s: nat)
    requires Sorted(es) && i <= |es|
    requires forall j :: 0 <= j < i ==> Less(es[j].key, SeekKey(u, s))
    requires i < |es| ==> !Less(es[i].key, SeekKey(u, s))
    ensures Delivers(es, u, s, if i < |es| then Some(es[i]) else None)
  {
    forall x | x in es && Candidate(x, u, s)
      ensures i < |es| && es[i].key.user == u && x.key.sequence <= es[i].key.sequence
    {
      var j :| 0 <= j < |es| && es[j] == x;
      assert !Less(x.key, SeekKey(u, s));
      assert i <= j;
      if i < j { assert Less(es[i].key, es[j].key); }
    }
  }

  method Match(f: FileMeta, u: UserKey, s: nat) returns (r: Saver)
    requires ValidFile(f)
    ensures Decides(Elements(f.entries), u, s, r)
  {
    var hit := TableGet(f, u, s);
    if hit.Some? && hit.value.key.user == u {
      r := Verdict(hit.value);
    } else {
      r := NotFound;
    }
  }

  ghost predicate NewestFirst(fs: seq<FileMeta>) {
    forall i, j :: 0 <= i < j < |fs| ==> fs[i].number >= fs[j].number
  }

  method InsertNewestFirst(fs: seq<FileMeta>, f: FileMeta) returns (r: seq<FileMeta>)
    requires NewestFirst(fs)
    ensures NewestFirst(r) && forall g :: g in r <==> g in fs || g == f
  {
    var p := 0;
    while p < |fs| && fs[p].number >= f.number
      invariant 0 <= p <= |fs|
      invariant forall i :: 0 <= i < p ==> fs[i].number >= f.number
    {
      p := p + 1;
    }
    r := fs[..p] + [f] + fs[p..];
    assert fs == fs[..p] + fs[p..];
  }

  method SortNewestFirst(fs: seq<FileMeta>) returns (r: seq<FileMeta>)
    ensures NewestFirst(r) && forall f :: f in r <==> f in fs
  {
    r := [];
    for k := 0 to |fs|
      invariant NewestFirst(r) && forall f :: f in r <==> f in fs[..k]
    {
      assert fs[..k+1] == fs[..k] + [fs[k]];
      r := InsertNewestFirst(r, fs[k]);
    }
    assert fs[..|fs|] == fs;
  }

  /** Level 0: every file whose user-key range has `u`, newest first. */
  method SearchLevel0(files: seq<FileMeta>, u: UserKey, s: nat) returns (r: Saver)
    requires forall f :: f in files ==> ValidFile(f)
    requires forall f, g :: f in files && g in files && f.number == g.number ==> f == g
    requires NewestByNumber(files)
    ensures Decides(Contents(files), u, s, r)
  {
    var tmp := [];
    for k := 0 to |files|
      invariant forall f :: f in tmp <==> f in files[..k] && InUserRange(f, u)
    {
      if InUserRange(files[k], u) { tmp := tmp + [files[k]]; }
      assert files[..k+1] == files[..k] + [files[k]];
    }
    assert files[..|files|] == files;
    tmp := SortNewestFirst(tmp);
    for i := 0 to |tmp|
      invariant forall j :: 0 <= j < i ==> Unseen(Elements(tmp[j].entries), u, s)
    {
      r := Match(tmp[i], u, s);
      if r != NotFound {
        ghost var e :| Newest(Elements(tmp[i].entries), u, s, e) && r == Verdict(e);
        Level0Hit(files, tmp, i, u, s, e);
        return;
      }
    }
    r := NotFound;
    Level0Miss(files, tmp, u, s);
  }

  lemma Level0Miss(files: seq<FileMeta>, tmp: seq<FileMeta>, u: UserKey, s: nat)
    requires AllValid(files)
    requires forall f :: f in tmp <==> f in files && InUserRange(f, u)
    requires forall j :: 0 <= j < |tmp| ==> Unseen(Elements(tmp[j].entries), u, s)
    ensures Unseen(Contents(files), u, s)
  {
    forall x | x in Contents(files) ensures !Candidate(x, u, s) {
      var f :| f in files && x in f.entries;
      EntryInRange(f, x);
    }
  }

  lemma Level0Hit(files: seq<FileMeta>, tmp: seq<FileMeta>, i: nat, u: UserKey, s: nat, e: Entry)
    requires AllValid(files)
    requires forall f, g :: f in files && g in files && f.number == g.number ==> f == g
    requires NewestByNumber(files)
    requires forall f :: f in tmp <==> f in files && InUserRange(f, u)
    requires NewestFirst(tmp)
    requires i < |tmp| && forall j :: 0 <= j < i ==> Unseen(Elements(tmp[j].entries), u, s)
    requires Newest(Elements(tmp[i].entries), u, s, e)
    ensures Newest(Contents(files), u, s, e)
  {
    hide ValidFile, Newer;
    forall x | x in Contents(files) && Candidate(x, u, s) ensures x.key.sequence <= e.key.sequence {
      var f :| f in files && x in f.entries;
      EntryInRange(f, x);
      var j :| 0 <= j < |tmp| && tmp[j] == f;
      if j < i { assert false; }
      if tmp[i].number > f.number {
        NewerEntry(tmp[i].entries, f.entries, e, x);
      }
    }
  }

  lemma NewerEntry(A: seq<Entry>, B: seq<Entry>, a: Entry, b: Entry)
    requires Newer(A, B) && a in A && b in B && a.key.user == b.key.user
    ensures b.key.sequence < a.key.sequence
  {}

  lemma LowerEntry(upper: seq<FileMeta>, lower: seq<FileMeta>, a: Entry, b: Entry)
    requires Above(upper, lower) && a in Contents(upper) && b in Contents(lower) && a.key.user == b.key.user
    ensures b.key.sequence < a.key.sequence
  {
    var f :| f in upper && a in f.entries;
    var g :| g in lower && b in g.entries;
    NewerEntry(f.entries, g.entries, a, b);
  }

  /** One binary-searched file, whose answer is that of the level when the files are sorted and
      disjoint. */
  method SearchLevel(files: seq<FileMeta>, u: UserKey, s: nat) returns (r: Saver)
    requires forall i :: 0 <= i < |files| ==> ValidFile(files[i])
    requires Partitioned(files, SeekKey(u, s))
    ensures forall p: nat :: FirstAtOrPast(files, SeekKey(u, s), p) ==>
              if p < |files| && u >= files[p].smallest.user then Decides(Elements(files[p].entries), u, s, r)
                else r == NotFound
    ensures Ordered(files) ==> Decides(Contents(files), u, s, r)
  {
    var index := FindFile(files, SeekKey(u, s));
    if index < |files| && u >= files[index].smallest.user {
      r := Match(files[index], u, s);
    } else {
      r := NotFound;
    }
    FirstIsUnique(files, SeekKey(u, s), index);
    if Ordered(files) { LevelProbe(files, index, u, s, r); }
  }

  lemma FirstIsUnique(files: seq<FileMeta>, key: InternalKey, p: nat)
    requires FirstAtOrPast(files, key, p)
    ensures forall q: nat :: FirstAtOrPast(files, key, q) ==> q == p
  {
    forall q: nat | FirstAtOrPast(files, key, q) ensures q == p {
      NotPast(files, key, p, q);
      NotPast(files, key, q, p);
    }
  }

  lemma NotPast(files: seq<FileMeta>, key: InternalKey, p: nat, q: nat)
    requires FirstAtOrPast(files, key, p) && FirstAtOrPast(files, key, q)
    ensures p <= q
  {
    if q < |files| { assert !Less(files[q].largest, key); }
  }

  lemma LevelProbe(files: seq<FileMeta>, index: nat, u: UserKey, s: nat, r: Saver)
    requires forall i :: 0 <= i < |files| ==> ValidFile(files[i])
    requires Ordered(files) && index <= |files|
    requires forall i :: 0 <= i < index ==> Less(files[i].largest, SeekKey(u, s))
    requires forall i :: index <= i < |files| ==> !Less(files[i].largest, SeekKey(u, s))
    requires if index < |files| && u >= files[index].smallest.user
             then Decides(Elements(files[index].entries), u, s, r) else r == NotFound
    ensures Decides(Contents(files), u, s, r)
  {
    var E := Contents(files);
    forall x | x in E && Candidate(x, u, s)
      ensures index < |files| && u >= files[index].smallest.user
      ensures exists y :: y in files[index].entries && Candidate(y, u, s) && x.key.sequence <= y.key.sequence
    {
      CandidateInProbedFile(files, index, u, s, x);
    }
    if r != NotFound {
      var e :| Newest(Elements(files[index].entries), u, s, e) && r == Verdict(e);
      assert Newest(E, u, s, e);
    }
  }

  lemma CandidateInProbedFile(files: seq<FileMeta>, index: nat, u: UserKey, s: nat, x: Entry)
    requires forall i :: 0 <= i < |files| ==> ValidFile(files[i])
    requires Ordered(files) && index <= |files|
    requires forall i :: 0 <= i < index ==> Less(files[i].largest, SeekKey(u, s))
    requires forall i :: index <= i < |files| ==> !Less(files[i].largest, SeekKey(u, s))
    requires x in Contents(files) && Candidate(x, u, s)
    ensures index < |files| && u >= files[index].smallest.user
    ensures exists y :: y in files[index].entries && Candidate(y, u, s) && x.key.sequence <= y.key.sequence
  {
    var f :| f in files && x in f.entries;
    var i :| 0 <= i < |files| && files[i] == f;
    EntryInRange(f, x);
    assert index <= i;
    FileSpan(files[index]);
    if index < i {
      assert Less(files[index].largest, files[i].smallest);
      var y := files[index].entries[|files[index].entries|-1];
      assert Candidate(y, u, s);
    }
  }

  /** What the search relies on: files whose contents their metadata describe, level 0 in order of
      age, and deeper levels that can be binary-searched for the key. */
  ghost predicate Searchable(v: Version, u: UserKey, s: nat) {
    && |v| == NUM_LEVELS && (forall i :: 0 <= i < |v| ==> AllValid(v[i]))
    && (forall f, g :: f in v[0] && g in v[0] && f.number == g.number ==> f == g) && NewestByNumber(v[0])
    && forall i :: 1 <= i < |v| ==> Partitioned(v[i], SeekKey(u, s))
  }

  lemma ValidIsSearchable(v: Version, u: UserKey, s: nat)
    requires ValidVersion(v)
    ensures Searchable(v, u, s)
  {
    forall i | 1 <= i < |v| ensures Partitioned(v[i], SeekKey(u, s)) {
      assert AllValid(v[i]);
      OrderedIsPartitioned(v[i], SeekKey(u, s));
    }
  }

  /** The search looks into a file of level 0 when the key is in its range, and on a deeper level
      only into the first one that ends at or after the key. */
  ghost predicate IsProbed(files: seq<FileMeta>, level: nat, f: FileMeta, u: UserKey, s: nat) {
    if level == 0 then f in files && InUserRange(f, u)
    else exists p: nat :: FirstAtOrPast(files, SeekKey(u, s), p) && p < |files| && files[p] == f
  }

  ghost predicate SeenInProbed(files: seq<FileMeta>, level: nat, u: UserKey, s: nat) {
    exists f :: IsProbed(files, level, f, u, s) && !Unseen(Elements(f.entries), u, s)
  }

  /** The level-by-level search, stopping at the first hit, which comes from a file it looks into;
      in a valid version it gives the newest visible version. */
  method Get(v: Version, u: UserKey, s: nat) returns (r: Saver)
    requires Searchable(v, u, s)
    ensures r != NotFound ==> exists level: nat :: level < |v| && SeenInProbed(v[level], level, u, s)
    ensures ValidVersion(v) ==> Decides(EntriesOf(v), u, s, r)
  {
    hide ValidFile, Newer, Newest, Candidate, Unseen, Decides, ValidVersion, Ordered, NewestByNumber, Partitioned,
         SeenInProbed;
    r := SearchLevel0(v[0], u, s);
    if r != NotFound { SeenOnLevel0(v[0], u, s, r); }
    var level := 1;
    while r == NotFound && level < NUM_LEVELS
      invariant 1 <= level <= NUM_LEVELS
      invariant r != NotFound ==> SeenInProbed(v[level - 1], level - 1, u, s)
      invariant ValidVersion(v) ==> Decides(Contents(v[level-1]), u, s, r)
      invariant ValidVersion(v) ==> forall i :: 0 <= i < level - 1 ==> Unseen(Contents(v[i]), u, s)
    {
      if ValidVersion(v) {
        NothingThere(Contents(v[level - 1]), u, s);
        LevelOrdered(v, level);
      }
      r := SearchLevel(v[level], u, s);
      if r != NotFound { SeenBelow(v[level], level, u, s, r); }
      level := level + 1;
    }
    if ValidVersion(v) {
      LevelsAbove(v, level - 1);
      FirstHitDecides(v, level - 1, u, s, r);
    }
  }

  lemma NothingThere(E: set<Entry>, u: UserKey, s: nat)
    requires Decides(E, u, s, NotFound)
    ensures Unseen(E, u, s)
  {}

  lemma LevelOrdered(v: Version, level: nat)
    requires ValidVersion(v) && 1 <= level < |v|
    ensures Ordered(v[level])
  {}

  lemma LevelsAbove(v: Version, k: nat)
    requires ValidVersion(v) && k < |v|
    ensures forall i :: k < i < |v| ==> Above(v[k], v[i])
  {
    hide AllValid, Ordered;
  }

  lemma SeenOnLevel0(files: seq<FileMeta>, u: UserKey, s: nat, r: Saver)
    requires AllValid(files) && Decides(Contents(files), u, s, r) && r != NotFound
    ensures SeenInProbed(files, 0, u, s)
  {
    var e :| Newest(Contents(files), u, s, e) && r == Verdict(e);
    var f :| f in files && e in f.entries;
    EntryInRange(f, e);
    assert IsProbed(files, 0, f, u, s) && !Unseen(Elements(f.entries), u, s);
  }

  lemma SeenBelow(files: seq<FileMeta>, level: nat, u: UserKey, s: nat, r: Saver)
    requires Partitioned(files, SeekKey(u, s)) && level > 0 && r != NotFound
    requires forall p: nat :: FirstAtOrPast(files, SeekKey(u, s), p) ==>
               if p < |files| && u >= files[p].smallest.user then Decides(Elements(files[p].entries), u, s, r)
                 else r == NotFound
    ensures SeenInProbed(files, level, u, s)
  {
    var p := FirstPast(files, SeekKey(u, s));
    var e :| Newest(Elements(files[p].entries), u, s, e) && r == Verdict(e);
    assert IsProbed(files, level, files[p], u, s) && !Unseen(Elements(files[p].entries), u, s);
  }

  lemma FirstPast(files: seq<FileMeta>, key: InternalKey) returns (p: nat)
    requires Partitioned(files, key)
    ensures FirstAtOrPast(files, key, p)
  {
    p := 0;
    while p < |files| && Less(files[p].largest, key)
      invariant 0 <= p <= |files| && forall i :: 0 <= i < p ==> Less(files[i].largest, key)
    {
      p := p + 1;
    }
  }

  lemma FirstHitDecides(v: Version, k: nat, u: UserKey, s: nat, r: Saver)
    requires k < |v| == NUM_LEVELS
    requires forall i :: k < i < |v| ==> Above(v[k], v[i])
    requires forall i :: 0 <= i < k ==> Unseen(Contents(v[i]), u, s)
    requires Decides(Contents(v[k]), u, s, r)
    requires r == NotFound ==> k == NUM_LEVELS - 1
    ensures Decides(EntriesOf(v), u, s, r)
  {
    if r != NotFound {
      var e :| Newest(Contents(v[k]), u, s, e) && r == Verdict(e);
      forall x | x in EntriesOf(v) && Candidate(x, u, s) ensures x.key.sequence <= e.key.sequence {
        var i :| 0 <= i < |v| && x in Contents(v[i]);
        if k < i { LowerEntry(v[k], v[i], e, x); }
      }
      assert Newest(EntriesOf(v), u, s, e);
    }
  }
}
