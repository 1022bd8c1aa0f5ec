/** Choosing the input files of a compaction, and the level of a flushed memtable. */
module Inputs {
  import opened InternalKeys
  import opened Versions

  /** A range of user keys, closed where it has a bound and unbounded where it has none. */
  datatype Range = Range(lo: Option<UserKey>, hi: Option<UserKey>)

  predicate AfterFile(k: Option<UserKey>, f: FileMeta) {
    k.Some? && k.value > f.largest.user
  }

  predicate BeforeFile(k: Option<UserKey>, f: FileMeta) {
    k.Some? && k.value < f.smallest.user
  }

  predicate Overlaps(f: FileMeta, r: Range) {
    !AfterFile(r.lo, f) && !BeforeFile(r.hi, f)
  }

  ghost predicate Within(f: FileMeta, r: Range) {
    && (r.lo.Some? ==> r.lo.value <= f.smallest.user)
    && (r.hi.Some? ==> f.largest.user <= r.hi.value)
  }

  ghost predicate Covers(big: Range, small: Range) {
    && (big.lo.Some? ==> small.lo.Some? && big.lo.value <= small.lo.value)
    && (big.hi.Some? ==> small.hi.Some? && small.hi.value <= big.hi.value)
  }

  /** No file sticks out of `r` on a bounded side. */
  ghost predicate Closed(files: seq<FileMeta>, r: Range) {
    forall f :: f in files && Overlaps(f, r) ==> Within(f, r)
  }

  function Overlapping(files: seq<FileMeta>, r: Range): (s: seq<FileMeta>)
    ensures forall f :: f in s <==> f in files && Overlaps(f, r)
  {
    if files == [] then []
    else
      var n := |files| - 1;
      assert files == files[..n] + [files[n]];
      Overlapping(files[..n], r) + if Overlaps(files[n], r) then [files[n]] else []
  }

  // ----- overlap closure -----

  predicate CoveredAt(files: seq<FileMeta>, x: UserKey) {
    exists f :: f in files && InUserRange(f, x)
  }

  predicate InRange(r: Range, x: UserKey) {
    (r.lo.Some? ==> r.lo.value <= x) && (r.hi.Some? ==> x <= r.hi.value)
  }

  /** `r` is larger than `range` only by user keys that are in the range of some file. */
  ghost predicate Grown(files: seq<FileMeta>, range: Range, r: Range) {
    forall x :: InRange(r, x) && !InRange(range, x) ==> CoveredAt(files, x)
  }

  /** Every range around `range` that no file sticks out of contains `r`. */
  ghost predicate Least(files: seq<FileMeta>, range: Range, r: Range) {
    forall q :: Covers(q, range) && Closed(files, q) ==> Covers(q, r)
  }

  function Outside(files: seq<FileMeta>, r: Range): nat {
    if files == [] then 0
    else
      (if r.lo.Some? && files[0].smallest.user < r.lo.value then 1 else 0)
      + (if r.hi.Some? && files[0].largest.user > r.hi.value then 1 else 0)
      + Outside(files[1..], r)
  }

  lemma OutsideShrinks(files: seq<FileMeta>, r: Range, q: Range)
    requires r.lo.Some? == q.lo.Some? && r.hi.Some? == q.hi.Some? && Covers(q, r)
    ensures Outside(files, q) <= Outside(files, r)
  {}

  lemma OutsideDrops(files: seq<FileMeta>, r: Range, q: Range, f: FileMeta)
    requires r.lo.Some? == q.lo.Some? && r.hi.Some? == q.hi.Some? && Covers(q, r) && f in files
    requires (r.lo.Some? && q.lo.value <= f.smallest.user < r.lo.value)
          || (r.hi.Some? && r.hi.value < f.largest.user <= q.hi.value)
    ensures Outside(files, q) < Outside(files, r)
  {
    OutsideShrinks(files[1..], r, q);
    if f != files[0] { OutsideDrops(files[1..], r, q, f); }
  }

  /** The files of a level that overlap `range`; on level 0 the range grows to the
      least one around `range` that no file sticks out of. */
  method GetOverlappingInputs(files: seq<FileMeta>, level: nat, range: Range)
      returns (inputs: seq<FileMeta>, ghost r: Range)
    requires AllValid(files)
    ensures forall f :: f in files && Overlaps(f, range) ==> f in inputs
    ensures level > 0 ==> inputs == Overlapping(files, range)
    ensures level == 0 ==> forall f, g :: f in inputs && g in files && Meet(f, g) ==> g in inputs
    ensures inputs == Overlapping(files, r)
    ensures level > 0 ==> r == range
    ensures level == 0 ==> Closed(files, r)
    ensures Covers(r, range) && r.lo.Some? == range.lo.Some? && r.hi.Some? == range.hi.Some?
    ensures Least(files, range, r)
    ensures Grown(files, range, r)
  {
    hide Least, Grown, Covers, Closed, Overlapping, ValidFile;
    inputs := [];
    var lo, hi := range.lo, range.hi;
    StartRange(files, range);
    NoOverlapping(range);
    var i := 0;
    while i < |files|
      invariant 0 <= i <= |files|
      invariant inputs == Overlapping(files[..i], Range(lo, hi))
      invariant level > 0 ==> lo == range.lo && hi == range.hi
      invariant level == 0 ==> Closed(files[..i], Range(lo, hi))
      invariant Covers(Range(lo, hi), range) && lo.Some? == range.lo.Some? && hi.Some? == range.hi.Some?
      invariant Least(files, range, Range(lo, hi))
      invariant Grown(files, range, Range(lo, hi))
      decreases Outside(files, Range(lo, hi)), |files| - i
    {
      var f := files[i];
      AddFile(files, i, Range(lo, hi));
      i := i + 1;
      if !AfterFile(lo, f) && !BeforeFile(hi, f) {
        inputs := inputs + [f];
        if level == 0 {
          ghost var before := Range(lo, hi);
          if lo.Some? && f.smallest.user < lo.value {
            lo := Some(f.smallest.user);
            Widened(files, range, before, Range(lo, hi), f);
            NoOverlapping(Range(lo, hi));
            inputs := [];
            i := 0;
          } else if hi.Some? && f.largest.user > hi.value {
            hi := Some(f.largest.user);
            Widened(files, range, before, Range(lo, hi), f);
            NoOverlapping(Range(lo, hi));
            inputs := [];
            i := 0;
          }
        }
      }
    }
    assert files[..|files|] == files;
    r := Range(lo, hi);
    ClosedInputs(files, range, r);
  }

  /** The user-key ranges of the two files have a key in common. */
  predicate Meet(f: FileMeta, g: FileMeta) {
    g.smallest.user <= f.largest.user && f.smallest.user <= g.largest.user
  }

  lemma ClosedInputs(files: seq<FileMeta>, range: Range, r: Range)
    requires Covers(r, range)
    ensures forall f :: f in files && Overlaps(f, range) ==> f in Overlapping(files, r)
    ensures Closed(files, r) ==> forall f, g :: f in Overlapping(files, r) && g in files && Meet(f, g) ==>
            g in Overlapping(files, r)
  {}

  lemma NoOverlapping(r: Range)
    ensures Overlapping([], r) == [] && Closed([], r)
  {}

  lemma AddFile(files: seq<FileMeta>, i: nat, r: Range)
    requires i < |files| && AllValid(files)
    ensures files[i].smallest.user <= files[i].largest.user
    ensures Overlapping(files[..i + 1], r) == Overlapping(files[..i], r) + if Overlaps(files[i], r) then [files[i]]
            else []
    ensures Closed(files[..i], r) && (Overlaps(files[i], r) ==> Within(files[i], r)) ==> Closed(files[..i + 1], r)
  {
    FileSpan(files[i]);
    assert files[..i + 1][..i] == files[..i];
  }

  lemma StartRange(files: seq<FileMeta>, range: Range)
    ensures Covers(range, range) && Least(files, range, range) && Grown(files, range, range)
  {}

  /** Growing a bound to that of an overlapping file keeps the range least and free of gaps. */
  lemma Widened(files: seq<FileMeta>, range: Range, r: Range, w: Range, f: FileMeta)
    requires f in files && Overlaps(f, r) && f.smallest.user <= f.largest.user
    requires (w == r.(lo := Some(f.smallest.user)) && r.lo.Some? && f.smallest.user < r.lo.value)
          || (w == r.(hi := Some(f.largest.user)) && r.hi.Some? && r.hi.value < f.largest.user)
    requires Least(files, range, r)
    requires Grown(files, range, r)
    ensures Least(files, range, w)
    ensures Grown(files, range, w)
    requires Covers(r, range)
    ensures Covers(w, range) && Outside(files, w) < Outside(files, r)
  {
    OutsideDrops(files, r, w, f);
    forall q | Covers(q, range) && Closed(files, q) ensures Covers(q, w) {
      assert Covers(q, r);
      assert Overlaps(f, q);
    }
    forall x | InRange(w, x) && !InRange(range, x) ensures CoveredAt(files, x) {
      if !InRange(r, x) { assert InUserRange(f, x); }
    }
  }

  // ----- boundary files -----

  ghost predicate IsLargestKey(fs: seq<FileMeta>, k: InternalKey) {
    && (exists f :: f in fs && f.largest == k)
    && forall f :: f in fs ==> !Less(k, f.largest)
  }

  /** `f` starts after `k` but with the same user key. */
  predicate StartsPast(f: FileMeta, k: InternalKey) {
    Less(k, f.smallest) && f.smallest.user == k.user
  }

  /** The file of `level` that starts first among those that start past `k`. */
  ghost predicate IsSmallestBoundary(level: seq<FileMeta>, k: InternalKey, b: FileMeta) {
    && b in level && StartsPast(b, k)
    && forall f :: f in level && StartsPast(f, k) ==> !Less(f.smallest, b.smallest)
  }

  ghost predicate NoBoundary(level: seq<FileMeta>, fs: seq<FileMeta>) {
    forall k, f :: IsLargestKey(fs, k) && f in level ==> !StartsPast(f, k)
  }

  ghost predicate BoundaryStep(level: seq<FileMeta>, fs: seq<FileMeta>, b: FileMeta) {
    exists k :: IsLargestKey(fs, k) && IsSmallestBoundary(level, k, b)
  }

  /** `all` is `fs` followed by files each of which is the smallest boundary file of those before it. */
  ghost predicate BoundaryChain(level: seq<FileMeta>, fs: seq<FileMeta>, all: seq<FileMeta>) {
    all == fs || (|all| > |fs| &&
                  var n := |all| - 1;
                  BoundaryStep(level, all[..n], all[n]) && BoundaryChain(level, fs, all[..n]))
  }

  /** `fs` with all boundary files of `level`: what `AddBoundaryInputs` is for. */
  ghost predicate WithBoundaries(level: seq<FileMeta>, fs: seq<FileMeta>, all: seq<FileMeta>) {
    if fs == [] then all == [] else BoundaryChain(level, fs, all) && NoBoundary(level, all)
  }

  method FindLargestKey(fs: seq<FileMeta>) returns (k: Option<InternalKey>)
    ensures k == None <==> fs == []
    ensures k.Some? ==> IsLargestKey(fs, k.value)
  {
    if fs == [] { return None; }
    var largest := fs[0].largest;
    for i := 1 to |fs|
      invariant IsLargestKey(fs[..i], largest)
    {
      assert fs[..i+1] == fs[..i] + [fs[i]];
      if Less(largest, fs[i].largest) { largest := fs[i].largest; }
    }
    assert fs[..|fs|] == fs;
    return Some(largest);
  }

  method FindSmallestBoundaryFile(level: seq<FileMeta>, k: InternalKey) returns (b: Option<FileMeta>)
    ensures b.Some? ==> IsSmallestBoundary(level, k, b.value)
    ensures b.None? ==> forall f :: f in level ==> !StartsPast(f, k)
  {
    b := None;
    for i := 0 to |level|
      invariant b.Some? ==> IsSmallestBoundary(level[..i], k, b.value)
      invariant b.None? ==> forall f :: f in level[..i] ==> !StartsPast(f, k)
    {
      assert level[..i+1] == level[..i] + [level[i]];
      if StartsPast(level[i], k) && (b.None? || Less(level[i].smallest, b.value.smallest)) {
        b := Some(level[i]);
      }
    }
    assert level[..|level|] == level;
  }

  /** How many files of `level` start past the user-key position `k`; only used for termination. */
  function StartAfter(level: seq<FileMeta>, k: InternalKey): nat {
    if level == [] then 0
    else (if Less(k, level[0].smallest) then 1 else 0) + StartAfter(level[1..], k)
  }

  lemma StartAfterShrinks(level: seq<FileMeta>, k: InternalKey, m: InternalKey)
    requires Less(k, m)
    ensures StartAfter(level, m) <= StartAfter(level, k)
  {}

  lemma StartAfterDrops(level: seq<FileMeta>, k: InternalKey, b: FileMeta)
    requires b in level && ValidFile(b) && Less(k, b.smallest)
    ensures Less(k, b.largest)
    ensures StartAfter(level, b.largest) < StartAfter(level, k)
  {
    FileSpan(b);
    StartAfterShrinks(level[1..], k, b.largest);
    if b != level[0] { StartAfterDrops(level[1..], k, b); }
  }

  lemma LargestKeyUnique(fs: seq<FileMeta>, k: InternalKey, m: InternalKey)
    requires IsLargestKey(fs, k) && IsLargestKey(fs, m)
    ensures k == m
  {
    assert !Less(k, m) && !Less(m, k);
  }

  lemma ChainEnds(level: seq<FileMeta>, all: seq<FileMeta>, k: InternalKey)
    requires IsLargestKey(all, k) && forall f :: f in level ==> !StartsPast(f, k)
    ensures NoBoundary(level, all)
  {
    forall m | IsLargestKey(all, m) ensures m == k { LargestKeyUnique(all, m, k); }
  }

  lemma ChainGrows(level: seq<FileMeta>, files: seq<FileMeta>, all: seq<FileMeta>, k: InternalKey, b: FileMeta)
    requires |files| <= |all| && BoundaryChain(level, files, all)
    requires IsLargestKey(all, k) && IsSmallestBoundary(level, k, b) && ValidFile(b)
    ensures BoundaryChain(level, files, all + [b])
    ensures IsLargestKey(all + [b], b.largest)
  {
    assert (all + [b])[..|all|] == all;
    FileSpan(b);
    assert (all + [b])[|all|] == b;
  }

  method AddBoundaryInputs(level: seq<FileMeta>, files: seq<FileMeta>) returns (all: seq<FileMeta>)
    requires AllValid(level)
    ensures WithBoundaries(level, files, all)
  {
    all := files;
    var k := FindLargestKey(files);
    if k == None { return; }
    var largest := k.value;
    var searching := true;
    while searching
      invariant |files| <= |all| && BoundaryChain(level, files, all)
      invariant IsLargestKey(all, largest)
      invariant !searching ==> NoBoundary(level, all)
      decreases searching, StartAfter(level, largest)
    {
      var b := FindSmallestBoundaryFile(level, largest);
      if b.Some? {
        StartAfterDrops(level, largest, b.value);
        ChainGrows(level, files, all, largest, b.value);
        all := all + [b.value];
        largest := b.value.largest;
      } else {
        ChainEnds(level, all, largest);
        searching := false;
      }
    }
  }

  // ----- the shape of a chosen set of files -----

  ghost predicate LeftOf(g: FileMeta, fs: seq<FileMeta>) {
    forall f :: f in fs ==> Less(g.largest, f.smallest)
  }

  ghost predicate RightOf(g: FileMeta, fs: seq<FileMeta>) {
    forall f :: f in fs ==> Less(f.largest, g.smallest)
  }

  /** Left, and sharing no user key. */
  ghost predicate UserLeftOf(g: FileMeta, fs: seq<FileMeta>) {
    forall f :: f in fs ==> g.largest.user < f.smallest.user
  }

  ghost predicate UserRightOf(g: FileMeta, fs: seq<FileMeta>) {
    forall f :: f in fs ==> f.largest.user < g.smallest.user
  }

  /** Every file of the level is chosen, or left of all chosen ones, or right of all of them. */
  ghost predicate Convex(level: seq<FileMeta>, fs: seq<FileMeta>) {
    forall g :: g in level && g !in fs ==> LeftOf(g, fs) || RightOf(g, fs)
  }

  lemma OverlappingIsConvex(level: seq<FileMeta>, r: Range)
    requires AllValid(level) && Ordered(level)
    ensures Convex(level, Overlapping(level, r))
  {
    var fs := Overlapping(level, r);
    forall g | g in level && g !in fs ensures LeftOf(g, fs) || RightOf(g, fs) {
      FileSpan(g);
      forall f | f in fs
        ensures if AfterFile(r.lo, g) then Less(g.largest, f.smallest) else Less(f.largest, g.smallest)
      {
        FileSpan(f);
        TwoFiles(level, f, g);
      }
    }
  }

  lemma TwoFiles(level: seq<FileMeta>, f: FileMeta, g: FileMeta)
    requires Ordered(level) && f in level && g in level && f != g
    ensures Less(f.largest, g.smallest) || Less(g.largest, f.smallest)
  {
    var i :| 0 <= i < |level| && level[i] == f;
    var j :| 0 <= j < |level| && level[j] == g;
  }

  /** Appending the smallest boundary file keeps the choice convex. */
  lemma BoundaryKeepsConvex(level: seq<FileMeta>, fs: seq<FileMeta>, k: InternalKey, b: FileMeta)
    requires AllValid(level) && AllValid(fs) && Ordered(level) && Convex(level, fs)
    requires IsLargestKey(fs, k) && IsSmallestBoundary(level, k, b)
    ensures Convex(level, fs + [b])
  {
    forall g | g in level && g !in fs + [b] ensures LeftOf(g, fs + [b]) || RightOf(g, fs + [b]) {
      TwoFiles(level, g, b);
      FileSpan(b);
      FileSpan(g);
      var h :| h in fs && h.largest == k;
      FileSpan(h);
    }
  }

  ghost predicate Subset(fs: seq<FileMeta>, level: seq<FileMeta>) {
    forall f :: f in fs ==> f in level
  }

  lemma {:induction false} ChainSubset(level: seq<FileMeta>, fs: seq<FileMeta>, all: seq<FileMeta>)
    requires Subset(fs, level) && BoundaryChain(level, fs, all)
    ensures Subset(all, level)
  {
    if all != fs {
      var n := |all| - 1;
      ChainSubset(level, fs, all[..n]);
      assert all == all[..n] + [all[n]];
    }
  }

  lemma {:induction false} ChainIsConvex(level: seq<FileMeta>, fs: seq<FileMeta>, all: seq<FileMeta>)
    requires AllValid(level) && Ordered(level) && Subset(fs, level) && Convex(level, fs)
    requires BoundaryChain(level, fs, all)
    ensures Convex(level, all) && Subset(all, level)
  {
    hide IsLargestKey, IsSmallestBoundary, Convex, ValidFile, Ordered;
    ChainSubset(level, fs, all);
    if all != fs {
      var n := |all| - 1;
      var some := all[..n];
      ChainIsConvex(level, fs, some);
      assert AllValid(some);
      var k :| IsLargestKey(some, k) && IsSmallestBoundary(level, k, all[n]);
      BoundaryKeepsConvex(level, some, k, all[n]);
      assert all == some + [all[n]];
    }
  }

  /** With no boundary file left, a file on the right shares no user key with a chosen one. */
  lemma RightIsUserRight(level: seq<FileMeta>, fs: seq<FileMeta>, g: FileMeta)
    requires NoBoundary(level, fs) && g in level && RightOf(g, fs)
    requires exists k :: IsLargestKey(fs, k)
    ensures UserRightOf(g, fs)
  {
    var k :| IsLargestKey(fs, k);
    assert !StartsPast(g, k);
  }
}
