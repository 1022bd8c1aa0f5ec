/** Setting up a compaction: which files are merged, and why that set is safe to merge. */
module Picking {
  import opened InternalKeys
  import opened Versions
  import opened Inputs

  /** Some file starts with `lo`, none starts earlier; some file ends with `hi`, none ends later. */
  ghost predicate IsRange(fs: seq<FileMeta>, lo: InternalKey, hi: InternalKey) {
    && (exists f :: f in fs && f.smallest == lo)
    && (forall f :: f in fs ==> !Less(f.smallest, lo))
    && IsLargestKey(fs, hi)
  }

  lemma RangeGrows(fs: seq<FileMeta>, lo: InternalKey, hi: InternalKey, f: FileMeta)
    requires IsRange(fs, lo, hi)
    ensures IsRange(fs + [f], if Less(f.smallest, lo) then f.smallest else lo, if Less(hi, f.largest) then f.largest
            else hi)
  {
    assert f in fs + [f];
  }

  method GetRange(fs: seq<FileMeta>) returns (lo: InternalKey, hi: InternalKey)
    requires fs != []
    ensures IsRange(fs, lo, hi)
  {
    lo, hi := fs[0].smallest, fs[0].largest;
    assert IsRange([fs[0]], lo, hi) by { assert fs[0] in [fs[0]]; }
    assert fs[..1] == [fs[0]];
    for i := 1 to |fs|
      invariant IsRange(fs[..i], lo, hi)
    {
      RangeGrows(fs[..i], lo, hi, fs[i]);
      assert fs[..i+1] == fs[..i] + [fs[i]];
      if Less(fs[i].smallest, lo) { lo := fs[i].smallest; }
      if Less(hi, fs[i].largest) { hi := fs[i].largest; }
    }
    assert fs[..|fs|] == fs;
  }

  function UserRange(lo: InternalKey, hi: InternalKey): Range {
    Range(Some(lo.user), Some(hi.user))
  }

  /** On level 0 the files left behind share no user key with the chosen ones. */
  ghost predicate Isolated(level: seq<FileMeta>, fs: seq<FileMeta>) {
    forall g :: g in level && g !in fs ==> UserLeftOf(g, fs) || UserRightOf(g, fs)
  }

  /** What `SetupOtherInputs` needs of the files it starts from. */
  ghost predicate Pickable(v: Version, level: nat, fs: seq<FileMeta>) {
    && level + 1 < NUM_LEVELS == |v|
    && fs != [] && Subset(fs, v[level])
    && if level == 0 then Isolated(v[0], fs) else Convex(v[level], fs)
  }

  /** A level-(L, L+1) merge of `in0` and `in1` is safe: a file left behind on level L that
      shares a user key with an input is newer (it lies to the left); a file left behind on
      level L+1 lies outside the range of the inputs and on the right shares no user key. */
  ghost predicate Legal(v: Version, level: nat, in0: seq<FileMeta>, in1: seq<FileMeta>) {
    && level + 1 < NUM_LEVELS == |v|
    && in0 != [] && Subset(in0, v[level]) && Subset(in1, v[level + 1])
    && LegalUpper(v[level], level, in0)
    && LegalLower(v[level + 1], in0, in1)
  }

  ghost predicate LegalUpper(files: seq<FileMeta>, level: nat, in0: seq<FileMeta>) {
    forall g :: g in files && g !in in0 ==>
      (if level == 0 then UserLeftOf(g, in0) else LeftOf(g, in0)) || UserRightOf(g, in0)
  }

  ghost predicate LegalLower(files: seq<FileMeta>, in0: seq<FileMeta>, in1: seq<FileMeta>) {
    forall g :: g in files && g !in in1 ==> LeftOf(g, in0 + in1) || UserRightOf(g, in0 + in1)
  }

  lemma {:induction false} IsolatedHasNoBoundary(level: seq<FileMeta>, fs: seq<FileMeta>, all: seq<FileMeta>)
    requires AllValid(level) && Subset(fs, level) && fs != [] && Isolated(level, fs)
    requires BoundaryChain(level, fs, all)
    ensures all == fs
  {
    if all != fs {
      var n := |all| - 1;
      IsolatedHasNoBoundary(level, fs, all[..n]);
      var k :| IsLargestKey(fs, k) && IsSmallestBoundary(level, k, all[n]);
      var h :| h in fs && h.largest == k;
      FileSpan(all[n]);
      FileSpan(h);
      assert false;
    }
  }

  lemma LargestExists(fs: seq<FileMeta>) returns (k: InternalKey)
    requires fs != []
    ensures IsLargestKey(fs, k)
  {
    k := fs[0].largest;
    if |fs| > 1 {
      var m := LargestExists(fs[1..]);
      if Less(k, m) { k := m; }
    }
  }

  lemma UpperIsLegal(v: Version, level: nat, fs: seq<FileMeta>, in0: seq<FileMeta>)
    requires Pickable(v, level, fs) && AllValid(v[level]) && (level > 0 ==> Ordered(v[level]))
    requires WithBoundaries(v[level], fs, in0)
    ensures in0 != [] && Subset(in0, v[level]) && LegalUpper(v[level], level, in0)
    ensures Subset(fs, in0)
  {
    ChainContains(v[level], fs, in0);
    if level == 0 {
      IsolatedHasNoBoundary(v[level], fs, in0);
    } else {
      ChainIsConvex(v[level], fs, in0);
      var k := LargestExists(in0);
      forall g | g in v[level] && g !in in0 ensures LeftOf(g, in0) || UserRightOf(g, in0) {
        if RightOf(g, in0) { RightIsUserRight(v[level], in0, g); }
      }
    }
  }

  lemma ChainContains(level: seq<FileMeta>, fs: seq<FileMeta>, all: seq<FileMeta>)
    requires BoundaryChain(level, fs, all)
    ensures Subset(fs, all)
    ensures fs <= all
  {}

  /** The files of the next level that overlap the range of `in0`, with their boundary files. */
  lemma LowerIsLegal(level: seq<FileMeta>, in0: seq<FileMeta>, in1: seq<FileMeta>, lo: InternalKey, hi: InternalKey)
    requires AllValid(level) && Ordered(level) && AllValid(in0) && IsRange(in0, lo, hi)
    requires WithBoundaries(level, Overlapping(level, UserRange(lo, hi)), in1)
    ensures Subset(in1, level) && LegalLower(level, in0, in1)
  {
    var fs := Overlapping(level, UserRange(lo, hi));
    if fs != [] {
      OverlappingIsConvex(level, UserRange(lo, hi));
      ChainIsConvex(level, fs, in1);
      ChainContains(level, fs, in1);
    }
    forall g | g in level && g !in in1 ensures LeftOf(g, in0 + in1) || UserRightOf(g, in0 + in1) {
      FileSpan(g);
      assert !Overlaps(g, UserRange(lo, hi));
      if fs != [] {
        LowerSides(level, fs, in1, lo, hi, g);
      }
    }
  }

  lemma LowerSides(level: seq<FileMeta>, fs: seq<FileMeta>, in1: seq<FileMeta>, lo: InternalKey, hi: InternalKey,
                   g: FileMeta)
    requires AllValid(level) && Ordered(level) && fs != []
    requires fs == Overlapping(level, UserRange(lo, hi)) && Subset(fs, in1)
    requires Convex(level, in1) && NoBoundary(level, in1)
    requires g in level && g !in in1
    ensures if g.largest.user < lo.user then LeftOf(g, in1) else UserRightOf(g, in1)
  {
    FileSpan(g);
    var f := fs[0];
    assert f in fs;
    FileSpan(f);
    TwoFiles(level, f, g);
    if !LeftOf(g, in1) {
      var k := LargestExists(in1);
      RightIsUserRight(level, in1, g);
    }
  }

  // ----- gap-free inputs -----

  /** Every user key between two files of `fs` is in the range of some file of `fs`. */
  ghost predicate Connected(fs: seq<FileMeta>) {
    forall f, g, x :: f in fs && g in fs && f.smallest.user <= x <= g.largest.user ==> CoveredAt(fs, x)
  }

  /** `b` meets the range that `fs` spans. */
  ghost predicate Touches(fs: seq<FileMeta>, b: FileMeta) {
    exists f, g :: f in fs && g in fs && f.smallest.user <= b.largest.user && b.smallest.user <= g.largest.user
  }

  lemma TouchKeepsConnected(fs: seq<FileMeta>, b: FileMeta)
    requires Connected(fs) && AllValid(fs) && ValidFile(b) && Touches(fs, b)
    ensures Connected(fs + [b])
  {
    hide ValidFile;
    FileSpan(b);
    var p, q :| p in fs && q in fs && p.smallest.user <= b.largest.user && b.smallest.user <= q.largest.user;
    forall f, g, x | f in fs + [b] && g in fs + [b] && f.smallest.user <= x <= g.largest.user
      ensures CoveredAt(fs + [b], x)
    {
      if InUserRange(b, x) {
        assert b in fs + [b];
      } else {
        var f' := if f in fs then f else p;
        var g' := if g in fs then g else q;
        assert f'.smallest.user <= x <= g'.largest.user;
        assert CoveredAt(fs, x);
        var h :| h in fs && InUserRange(h, x);
        assert h in fs + [b];
      }
    }
  }

  lemma {:induction false} TouchAllKeepsConnected(fs: seq<FileMeta>, bs: seq<FileMeta>)
    requires Connected(fs) && AllValid(fs) && AllValid(bs)
    requires forall b :: b in bs ==> Touches(fs, b)
    ensures Connected(fs + bs)
  {
    hide Connected, ValidFile;
    if bs == [] {
      assert fs + bs == fs;
    } else {
      var n := |bs| - 1;
      TouchAllKeepsConnected(fs, bs[..n]);
      var b := bs[n];
      assert b in bs && Touches(fs, b);
      var p, q :| p in fs && q in fs && p.smallest.user <= b.largest.user && b.smallest.user <= q.largest.user;
      assert p in fs + bs[..n] && q in fs + bs[..n];
      TouchKeepsConnected(fs + bs[..n], b);
      assert fs + bs == (fs + bs[..n]) + [b];
    }
  }

  lemma BoundaryTouches(level: seq<FileMeta>, base: seq<FileMeta>, fs: seq<FileMeta>, k: InternalKey, b: FileMeta)
    requires AllValid(level) && Subset(fs, level)
    requires IsLargestKey(fs, k) && IsSmallestBoundary(level, k, b)
    ensures Touches(base + fs, b)
  {
    var h :| h in fs && h.largest == k;
    FileSpan(h);
    FileSpan(b);
    assert h in base + fs;
  }

  /** Files of which every one touches `base`, with their boundary files. */
  lemma {:induction false} ChainKeepsConnected(base: seq<FileMeta>, level: seq<FileMeta>, fs: seq<FileMeta>,
                                               all: seq<FileMeta>)
    requires Connected(base) && AllValid(base) && AllValid(level) && Subset(fs, level)
    requires forall b :: b in fs ==> Touches(base, b)
    requires BoundaryChain(level, fs, all)
    ensures Connected(base + all)
  {
    hide Connected, Touches, ValidFile;
    if all == fs {
      TouchAllKeepsConnected(base, fs);
    } else {
      var n := |all| - 1;
      var b, mid := all[n], base + all[..n];
      ChainKeepsConnected(base, level, fs, all[..n]);
      ChainSubset(level, fs, all[..n]);
      assert AllValid(mid);
      assert Touches(mid, b) && ValidFile(b) by {
        var k :| IsLargestKey(all[..n], k) && IsSmallestBoundary(level, k, b);
        BoundaryTouches(level, base, all[..n], k, b);
      }
      TouchKeepsConnected(mid, b);
      assert base + all == mid + [b];
    }
  }

  lemma SameFilesConnected(fs: seq<FileMeta>, gs: seq<FileMeta>)
    requires Connected(fs) && (forall f :: f in fs <==> f in gs)
    ensures Connected(gs)
  {
    forall f, g, x | f in gs && g in gs && f.smallest.user <= x <= g.largest.user ensures CoveredAt(gs, x) {
      assert CoveredAt(fs, x);
      var h :| h in fs && InUserRange(h, x);
      assert h in gs;
    }
  }

  lemma OverlapTouches(fs: seq<FileMeta>, lo: InternalKey, hi: InternalKey, b: FileMeta)
    requires IsRange(fs, lo, hi) && Overlaps(b, UserRange(lo, hi))
    ensures Touches(fs, b)
  {
    var f :| f in fs && f.smallest == lo;
    var g :| g in fs && g.largest == hi;
  }

  lemma ClosedIsIsolated(files: seq<FileMeta>, r: Range)
    requires AllValid(files) && Closed(files, r)
    ensures Isolated(files, Overlapping(files, r))
  {
    var fs := Overlapping(files, r);
    forall g | g in files && g !in fs ensures UserLeftOf(g, fs) || UserRightOf(g, fs) {
      FileSpan(g);
      if AfterFile(r.lo, g) {
        forall f | f in fs ensures g.largest.user < f.smallest.user { assert Within(f, r); }
      } else {
        forall f | f in fs ensures f.largest.user < g.smallest.user { assert Within(f, r); }
      }
    }
  }

  /** Files chosen by overlap, on any level, can start a compaction. */
  lemma OverlapIsPickable(v: Version, level: nat, r: Range)
    requires level + 1 < NUM_LEVELS == |v| && AllValid(v[level]) && Overlapping(v[level], r) != []
    requires if level == 0 then Closed(v[level], r) else Ordered(v[level])
    ensures Pickable(v, level, Overlapping(v[level], r))
  {
    if level == 0 { ClosedIsIsolated(v[level], r); } else { OverlappingIsConvex(v[level], r); }
  }

  lemma ChoiceHasBoundary(level: seq<FileMeta>, some: seq<FileMeta>, all: seq<FileMeta>, k: InternalKey, b: FileMeta)
    requires AllValid(level) && Subset(some, all) && Subset(all, level)
    requires IsLargestKey(some, k) && IsSmallestBoundary(level, k, b)
    requires Convex(level, all) && NoBoundary(level, all)
    ensures b in all
  {
    var h :| h in some && h.largest == k;
    FileSpan(h);
    FileSpan(b);
    assert !LeftOf(b, all);
    var m := LargestExists(all);
    assert !StartsPast(b, m);
  }

  /** Growing the range keeps every file chosen before. */
  lemma {:induction false} LowerGrows(level: seq<FileMeta>, fs: seq<FileMeta>, in1: seq<FileMeta>, all: seq<FileMeta>)
    requires AllValid(level) && Subset(fs, all)
    requires BoundaryChain(level, fs, in1)
    requires Convex(level, all) && NoBoundary(level, all) && Subset(all, level)
    ensures Subset(in1, all)
  {
    hide IsLargestKey, IsSmallestBoundary, NoBoundary, Convex, ValidFile;
    if in1 != fs {
      var n := |in1| - 1;
      LowerGrows(level, fs, in1[..n], all);
      var k :| IsLargestKey(in1[..n], k) && IsSmallestBoundary(level, k, in1[n]);
      ChoiceHasBoundary(level, in1[..n], all, k, in1[n]);
      assert in1 == in1[..n] + [in1[n]];
    }
  }

  lemma OverlapConnected(v: Version, level: nat, base: seq<FileMeta>, lo: InternalKey, hi: InternalKey, r: Range)
    requires level < |v| && AllValid(v[level]) && AllValid(base)
    requires Connected(base) && IsRange(base, lo, hi)
    requires if level == 0 then Closed(v[0], r) && Covers(r, UserRange(lo, hi)) && r.lo.Some?
             && r.hi.Some? else r == UserRange(lo, hi)
    requires Grown(v[level], UserRange(lo, hi), r)
    ensures Connected(base + Overlapping(v[level], r))
  {
    var fs := Overlapping(v[level], r);
    if level > 0 {
      forall b | b in fs ensures Touches(base, b) { OverlapTouches(base, lo, hi, b); }
      TouchAllKeepsConnected(base, fs);
    } else {
      forall f, g, x | f in base + fs && g in base + fs && f.smallest.user <= x <= g.largest.user
        ensures CoveredAt(base + fs, x)
      {
        assert f in fs ==> Within(f, r);
        assert g in fs ==> Within(g, r);
        ClosureCovers(v[0], base, lo, hi, r, x);
      }
    }
  }

  lemma ClosureCovers(files: seq<FileMeta>, base: seq<FileMeta>, lo: InternalKey, hi: InternalKey, r: Range, x: UserKey)
    requires Connected(base) && IsRange(base, lo, hi)
    requires Grown(files, UserRange(lo, hi), r) && InRange(r, x)
    ensures CoveredAt(base + Overlapping(files, r), x)
  {
    if InRange(UserRange(lo, hi), x) {
      var p :| p in base && p.smallest == lo;
      var q :| q in base && q.largest == hi;
      assert CoveredAt(base, x);
      var h :| h in base && InUserRange(h, x);
      assert h in base + Overlapping(files, r);
    } else {
      assert CoveredAt(files, x);
      var h :| h in files && InUserRange(h, x);
      assert h in base + Overlapping(files, r);
    }
  }

  // ----- how the inputs are listed -----

  ghost predicate NoRepeat(fs: seq<FileMeta>) {
    forall i, j :: 0 <= i < j < |fs| ==> fs[i] != fs[j]
  }

  /** The files of level 0 are merged one by one, those of a deeper level as one run. */
  ghost predicate Iterable(level: nat, fs: seq<FileMeta>) {
    if level == 0 then NoRepeat(fs) else Ordered(fs)
  }

  lemma {:induction false} OverlappingOrdered(files: seq<FileMeta>, r: Range)
    requires AllValid(files) && Ordered(files)
    ensures Ordered(Overlapping(files, r))
  {
    if files != [] {
      var n := |files| - 1;
      assert files == files[..n] + [files[n]];
      OverlappingOrdered(files[..n], r);
      var fs := Overlapping(files[..n], r);
      forall i | 0 <= i < |fs| ensures Less(fs[i].largest, files[n].smallest) {
        assert fs[i] in fs;
        var j :| 0 <= j < n && files[..n][j] == fs[i];
      }
    }
  }

  lemma {:induction false} OverlappingNoRepeat(files: seq<FileMeta>, r: Range)
    requires NoRepeat(files)
    ensures NoRepeat(Overlapping(files, r))
  {
    if files != [] {
      var n := |files| - 1;
      assert files == files[..n] + [files[n]];
      OverlappingNoRepeat(files[..n], r);
      var fs := Overlapping(files[..n], r);
      forall i | 0 <= i < |fs| ensures fs[i] != files[n] { assert fs[i] in fs; }
    }
  }

  lemma OverlappingIterable(level: nat, files: seq<FileMeta>, r: Range)
    requires AllValid(files) && Iterable(level, files)
    ensures Iterable(level, Overlapping(files, r))
  {
    if level == 0 { OverlappingNoRepeat(files, r); } else { OverlappingOrdered(files, r); }
  }

  /** A boundary file starts past all files before it. */
  lemma StepIterable(level: nat, files: seq<FileMeta>, front: seq<FileMeta>, b: FileMeta)
    requires AllValid(files) && BoundaryStep(files, front, b) && Iterable(level, front)
    ensures Iterable(level, front + [b])
  {
    hide ValidFile;
    var k :| IsLargestKey(front, k) && IsSmallestBoundary(files, k, b);
    FileSpan(b);
    forall i | 0 <= i < |front|
      ensures Less(front[i].largest, b.smallest) && front[i] != b { assert front[i] in front; }
  }

  lemma {:induction false} ChainIterable(level: nat, files: seq<FileMeta>, fs: seq<FileMeta>, all: seq<FileMeta>)
    requires AllValid(files) && BoundaryChain(files, fs, all) && Iterable(level, fs)
    ensures Iterable(level, all)
    decreases |all|
  {
    hide AllValid, BoundaryStep, Iterable;
    if all != fs {
      var front, b := all[..|all| - 1], all[|all| - 1];
      ChainIterable(level, files, fs, front);
      StepIterable(level, files, front, b);
      assert all == front + [b];
    }
  }

  lemma BoundariesIterable(level: nat, files: seq<FileMeta>, fs: seq<FileMeta>, all: seq<FileMeta>)
    requires AllValid(files) && WithBoundaries(files, fs, all) && Iterable(level, fs)
    ensures Iterable(level, all)
  {
    if fs != [] { ChainIterable(level, files, fs, all); }
  }

  lemma LevelIterable(v: Version, level: nat)
    requires WellFormed(v) && NoRepeat(v[0]) && level < |v|
    ensures Iterable(level, v[level]) && AllValid(v[level])
  {}

  // ----- the code -----

  /** The level-(L+1) inputs of the files `in0`. */
  method LowerInputs(v: Version, level: nat, in0: seq<FileMeta>)
      returns (in1: seq<FileMeta>, smallest: InternalKey, largest: InternalKey)
    requires WellFormed(v) && level + 1 < NUM_LEVELS
    requires in0 != [] && Subset(in0, v[level])
    ensures IsRange(in0, smallest, largest)
    ensures WithBoundaries(v[level + 1], Overlapping(v[level + 1], UserRange(smallest, largest)), in1)
    ensures Ordered(in1)
  {
    smallest, largest := GetRange(in0);
    var overlaps, _ := GetOverlappingInputs(v[level + 1], level + 1, UserRange(smallest, largest));
    in1 := AddBoundaryInputs(v[level + 1], overlaps);
    OverlappingOrdered(v[level + 1], UserRange(smallest, largest));
    BoundariesIterable(level + 1, v[level + 1], overlaps, in1);
  }

  lemma StageIsLegal(v: Version, level: nat, fs: seq<FileMeta>, in0: seq<FileMeta>, in1: seq<FileMeta>, lo: InternalKey,
                     hi: InternalKey)
    requires WellFormed(v) && Pickable(v, level, fs) && WithBoundaries(v[level], fs, in0)
    requires IsRange(in0, lo, hi)
    requires WithBoundaries(v[level + 1], Overlapping(v[level + 1], UserRange(lo, hi)), in1)
    ensures Legal(v, level, in0, in1) && Subset(fs, in0)
  {
    UpperIsLegal(v, level, fs, in0);
    LowerIsLegal(v[level + 1], in0, in1, lo, hi);
  }

  lemma StageIsConnected(v: Version, level: nat, fs: seq<FileMeta>, in0: seq<FileMeta>, in1: seq<FileMeta>,
                         lo: InternalKey, hi: InternalKey)
    requires WellFormed(v) && Pickable(v, level, fs) && WithBoundaries(v[level], fs, in0)
    requires IsRange(in0, lo, hi)
    requires WithBoundaries(v[level + 1], Overlapping(v[level + 1], UserRange(lo, hi)), in1)
    requires Connected(fs)
    ensures Connected(in0 + in1)
  {
    UpperIsLegal(v, level, fs, in0);
    forall b | b in fs ensures Touches(fs, b) { FileSpan(b); }
    ChainKeepsConnected(fs, v[level], fs, in0);
    SameFilesConnected(fs + in0, in0);
    LowerConnected(v, level, in0, in0, in1, lo, hi);
  }

  lemma LowerConnected(v: Version, level: nat, base: seq<FileMeta>, in0: seq<FileMeta>, in1: seq<FileMeta>,
                       lo: InternalKey, hi: InternalKey)
    requires WellFormed(v) && level + 1 < NUM_LEVELS && Subset(in0, v[level]) && Subset(in0, base)
    requires AllValid(base) && Connected(base) && IsRange(in0, lo, hi)
    requires WithBoundaries(v[level + 1], Overlapping(v[level + 1], UserRange(lo, hi)), in1)
    ensures Connected(base + in1)
  {
    var overlaps := Overlapping(v[level + 1], UserRange(lo, hi));
    if overlaps == [] {
      assert base + in1 == base;
    } else {
      forall b | b in overlaps ensures Touches(base, b) { OverlapTouches(in0, lo, hi, b); }
      ChainKeepsConnected(base, v[level + 1], overlaps, in1);
    }
  }

  /** The lower inputs of a larger upper set contain those of a smaller one. */
  lemma LowerContains(v: Version, level: nat, in0: seq<FileMeta>, in1: seq<FileMeta>, lo: InternalKey, hi: InternalKey,
                      x0: seq<FileMeta>, x1: seq<FileMeta>, xlo: InternalKey, xhi: InternalKey)
    requires WellFormed(v) && level + 1 < NUM_LEVELS && Subset(in0, x0)
    requires IsRange(in0, lo, hi) && WithBoundaries(v[level + 1], Overlapping(v[level + 1], UserRange(lo, hi)), in1)
    requires IsRange(x0, xlo, xhi) && WithBoundaries(v[level + 1], Overlapping(v[level + 1], UserRange(xlo, xhi)), x1)
    ensures Subset(in1, x1)
  {
    var lower := v[level + 1];
    var fs, xs := Overlapping(lower, UserRange(lo, hi)), Overlapping(lower, UserRange(xlo, xhi));
    if fs != [] {
      assert xlo.user <= lo.user && hi.user <= xhi.user;
      assert Subset(fs, xs);
      assert fs[0] in xs;
      OverlappingIsConvex(lower, UserRange(xlo, xhi));
      ChainIsConvex(lower, xs, x1);
      ChainContains(lower, xs, x1);
      LowerGrows(lower, fs, in1, x1);
    }
  }

  lemma ExpandedIsConnected(v: Version, level: nat, in0: seq<FileMeta>, in1: seq<FileMeta>, start: InternalKey,
                            limit: InternalKey, r: Range,
                            x0: seq<FileMeta>, x1: seq<FileMeta>, xlo: InternalKey, xhi: InternalKey)
    requires WellFormed(v) && level + 1 < NUM_LEVELS && Subset(in0, v[level]) && AllValid(in0 + in1)
    requires Connected(in0 + in1) && IsRange(in0 + in1, start, limit)
    requires if level == 0 then Closed(v[0], r) && Covers(r, UserRange(start, limit)) && r.lo.Some?
             && r.hi.Some? else r == UserRange(start, limit)
    requires Grown(v[level], UserRange(start, limit), r)
    requires x0 != [] && WithBoundaries(v[level], Overlapping(v[level], r), x0)
    requires IsRange(x0, xlo, xhi)
    requires WithBoundaries(v[level + 1], Overlapping(v[level + 1], UserRange(xlo, xhi)), x1)
    requires Subset(in1, x1)
    ensures Subset(in0, x0)
    ensures Connected(x0 + x1)
  {
    var base, fs := in0 + in1, Overlapping(v[level], r);
    OverlapIsPickable(v, level, r);
    UpperIsLegal(v, level, fs, x0);
    RangeMembersOverlap(base, start, limit, r);
    assert Subset(in0, x0);
    OverlapConnected(v, level, base, start, limit, r);
    var base1 := base + fs;
    forall b | b in fs ensures Touches(base1, b) { FileSpan(b); assert b in base1; }
    ChainKeepsConnected(base1, v[level], fs, x0);
    var base2 := base1 + x0;
    LowerConnected(v, level, base2, x0, x1, xlo, xhi);
    SameFilesConnected(base2 + x1, x0 + x1);
  }

  lemma RangeMembersOverlap(fs: seq<FileMeta>, lo: InternalKey, hi: InternalKey, r: Range)
    requires AllValid(fs) && IsRange(fs, lo, hi) && Covers(r, UserRange(lo, hi))
    ensures forall f :: f in fs ==> Overlaps(f, r)
  {
    forall f | f in fs ensures Overlaps(f, r) { FileSpan(f); }
  }

  /** A file that meets one of the inputs overlaps the range of them all. */
  lemma MeetsRange(fs: seq<FileMeta>, lo: InternalKey, hi: InternalKey)
    requires AllValid(fs) && IsRange(fs, lo, hi)
    ensures forall f, g :: g in fs && Meet(f, g) ==> Overlaps(f, UserRange(lo, hi))
  {}

  /** The upper files that overlap the range of all inputs, with their boundary files. */
  ghost predicate UpperGrowth(v: Version, level: nat, inputs: seq<FileMeta>, grown: seq<FileMeta>)
    requires level < |v|
  {
    exists start, limit, r ::
      && IsRange(inputs, start, limit) && WithBoundaries(v[level], Overlapping(v[level], r), grown)
      && Covers(r, UserRange(start, limit)) && Least(v[level], UserRange(start, limit), r)
      && if level == 0 then Closed(v[0], r) else r == UserRange(start, limit)
  }

  /** The lower files that overlap the range of `upper`, with their boundary files. */
  ghost predicate LowerFor(v: Version, level: nat, upper: seq<FileMeta>, lower: seq<FileMeta>)
    requires level + 1 < |v|
  {
    exists lo, hi :: IsRange(upper, lo, hi)
      && WithBoundaries(v[level + 1], Overlapping(v[level + 1], UserRange(lo, hi)), lower)
  }

  lemma GrowthIs(v: Version, level: nat, inputs: seq<FileMeta>, grown: seq<FileMeta>, start: InternalKey,
                 limit: InternalKey, r: Range)
    requires level < |v| && IsRange(inputs, start, limit) && WithBoundaries(v[level], Overlapping(v[level], r), grown)
    requires Covers(r, UserRange(start, limit)) && Least(v[level], UserRange(start, limit), r)
    requires if level == 0 then Closed(v[0], r) else r == UserRange(start, limit)
    ensures UpperGrowth(v, level, inputs, grown)
  {
    hide WithBoundaries, Covers, Least, Closed, IsRange, Overlapping;
  }

  lemma LowerIs(v: Version, level: nat, upper: seq<FileMeta>, lower: seq<FileMeta>, lo: InternalKey, hi: InternalKey)
    requires level + 1 < |v| && IsRange(upper, lo, hi)
             && WithBoundaries(v[level + 1], Overlapping(v[level + 1], UserRange(lo, hi)), lower)
    ensures LowerFor(v, level, upper, lower)
  {
    hide WithBoundaries, IsRange, Overlapping;
  }

  /** Grows the upper inputs to the files that overlap the whole range exactly if that adds files,
      does not change the number of lower inputs and stays below `expandedLimit` bytes. */
  method ExpandInputs(v: Version, level: nat, in0: seq<FileMeta>, in1: seq<FileMeta>, smallest: InternalKey,
                      largest: InternalKey, expandedLimit: nat)
      returns (x0: seq<FileMeta>, x1: seq<FileMeta>, pointer: InternalKey, ghost grown0: seq<FileMeta>,
        ghost grown1: seq<FileMeta>)
    requires WellFormed(v) && Legal(v, level, in0, in1) && IsRange(in0, smallest, largest)
    requires WithBoundaries(v[level + 1], Overlapping(v[level + 1], UserRange(smallest, largest)), in1)
    requires NoRepeat(v[0]) && Iterable(level, in0) && Ordered(in1)
    ensures Iterable(level, x0) && Ordered(x1)
    ensures Legal(v, level, x0, x1)
    ensures Subset(in0, x0)
    ensures Connected(in0 + in1) ==> Connected(x0 + x1)
    ensures IsLargestKey(x0, pointer)
    ensures in1 != [] ==> UpperGrowth(v, level, in0 + in1, grown0)
    ensures var few := in1 != [] && |grown0| > |in0| && TotalFileSize(in1) + TotalFileSize(grown0) < expandedLimit;
            && (few ==> LowerFor(v, level, grown0, grown1))
            && if few && |grown1| == |in1| then x0 == grown0 && x1 == grown1 else x0 == in0 && x1 == in1
    ensures (x0 == in0 && x1 == in1) || forall f :: f in v[level] && (exists g :: g in in0 + in1 && Meet(f, g)) ==>
            f in x0
  {
    hide UpperGrowth, LowerFor, Least, Grown;
    x0, x1, pointer, grown0, grown1 := in0, in1, largest, [], [];
    if in1 == [] { return; }
    var start, limit := GetRange(in0 + in1);
    var overlaps, r := GetOverlappingInputs(v[level], level, UserRange(start, limit));
    var expanded0 := AddBoundaryInputs(v[level], overlaps);
    LevelIterable(v, level);
    OverlappingIterable(level, v[level], r);
    BoundariesIterable(level, v[level], overlaps, expanded0);
    grown0 := expanded0;
    GrowthIs(v, level, in0 + in1, grown0, start, limit, r);
    if |expanded0| > |in0| && TotalFileSize(in1) + TotalFileSize(expanded0) < expandedLimit {
      OverlapIsPickable(v, level, r);
      UpperIsLegal(v, level, overlaps, expanded0);
      var expanded1, newStart, newLimit := LowerInputs(v, level, expanded0);
      grown1 := expanded1;
      LowerIs(v, level, grown0, grown1, newStart, newLimit);
      if |expanded1| == |in1| {
        StageIsLegal(v, level, overlaps, expanded0, expanded1, newStart, newLimit);
        assert AllValid(in0 + in1);
        RangeMembersOverlap(in0 + in1, start, limit, r);
        MeetsRange(in0 + in1, start, limit);
        assert Subset(in0, expanded0) by { assert Subset(in0, overlaps); }
        LowerContains(v, level, in0, in1, smallest, largest, expanded0, expanded1, newStart, newLimit);
        if Connected(in0 + in1) {
          ExpandedIsConnected(v, level, in0, in1, start, limit, r, expanded0, expanded1, newStart, newLimit);
        }
        x0, x1, pointer := expanded0, expanded1, newLimit;
      }
    }
  }

  ghost predicate GrandparentsOf(v: Version, level: nat, inputs: seq<FileMeta>, grandparents: seq<FileMeta>) {
    if level + 2 < |v| then exists lo, hi ::
        IsRange(inputs, lo, hi) && grandparents == Overlapping(v[level + 2], UserRange(lo, hi))
    else grandparents == []
  }

  /** From the files picked first to the inputs of both levels; `expandedLimit` bounds the
      bytes of a compaction whose upper inputs were grown. */
  method SetupOtherInputs(v: Version, level: nat, picked: seq<FileMeta>, expandedLimit: nat)
      returns (in0: seq<FileMeta>, in1: seq<FileMeta>, grandparents: seq<FileMeta>, pointer: InternalKey)
    requires WellFormed(v) && Pickable(v, level, picked)
    requires NoRepeat(v[0]) && Iterable(level, picked)
    ensures Legal(v, level, in0, in1) && Iterable(level, in0) && Ordered(in1)
    ensures Subset(picked, in0)
    ensures Connected(picked) ==> Connected(in0 + in1)
    ensures IsLargestKey(in0, pointer)
    ensures GrandparentsOf(v, level, in0 + in1, grandparents)
  {
    in0 := AddBoundaryInputs(v[level], picked);
    BoundariesIterable(level, v[level], picked, in0);
    UpperIsLegal(v, level, picked, in0);
    var smallest;
    in1, smallest, pointer := LowerInputs(v, level, in0);
    StageIsLegal(v, level, picked, in0, in1, smallest, pointer);
    if Connected(picked) { StageIsConnected(v, level, picked, in0, in1, smallest, pointer); }
    ghost var grown0, grown1;
    in0, in1, pointer, grown0, grown1 := ExpandInputs(v, level, in0, in1, smallest, pointer, expandedLimit);
    var allStart, allLimit := GetRange(in0 + in1);
    grandparents := [];
    if level + 2 < NUM_LEVELS {
      ghost var unused;
      grandparents, unused := GetOverlappingInputs(v[level + 2], level + 2, UserRange(allStart, allLimit));
    }
  }

  datatype Compaction = Compaction(level: nat, in0: seq<FileMeta>, in1: seq<FileMeta>, grandparents: seq<FileMeta>,
                                   pointer: InternalKey)

  /** The pointer is the largest key of the upper inputs, and the grandparents are the files two
      levels down that the inputs overlap. */
  ghost predicate Described(v: Version, c: Compaction) {
    IsLargestKey(c.in0, c.pointer) && GrandparentsOf(v, c.level, c.in0 + c.in1, c.grandparents)
  }

  lemma SameGrandparents(v: Version, level: nat, inputs: seq<FileMeta>, a: seq<FileMeta>, b: seq<FileMeta>)
    requires GrandparentsOf(v, level, inputs, a) && GrandparentsOf(v, level, inputs, b)
    ensures a == b
  {
    hide Overlapping;
  }

  /** What the choice is made around: the file after the compaction pointer of a level that is too
      large, or else the file that was sought too often. */
  ghost predicate IsChosen(v: Version, pointers: seq<Option<InternalKey>>, sizeLevel: Option<nat>,
                           seek: Option<(nat, FileMeta)>, level: nat, in0: seq<FileMeta>)
    requires |v| == |pointers| == NUM_LEVELS
  {
    if sizeLevel.Some? then
      && level == sizeLevel.value < NUM_LEVELS
      && exists f :: IsNext(v[level], pointers[level], f) && f in in0
    else seek.Some? && level == seek.value.0 && seek.value.1 in in0
  }

  /** One file that needs no merge: nothing on the next level, and light grandparents. */
  ghost predicate MovesAlone(v: Version, level: nat, in0: seq<FileMeta>, in1: seq<FileMeta>, grandparentLimit: nat) {
    && |in0| == 1 && in1 == []
    && exists grandparents :: GrandparentsOf(v, level, in0 + in1, grandparents)
                              && TotalFileSize(grandparents) <= grandparentLimit
  }

  lemma MovesAloneIff(v: Version, c: Compaction, grandparentLimit: nat)
    requires Described(v, c)
    ensures MovesAlone(v, c.level, c.in0, c.in1, grandparentLimit) <==>
              |c.in0| == 1 && c.in1 == [] && TotalFileSize(c.grandparents) <= grandparentLimit
  {
    hide GrandparentsOf;
    forall g | GrandparentsOf(v, c.level, c.in0 + c.in1, g) ensures g == c.grandparents {
      SameGrandparents(v, c.level, c.in0 + c.in1, g, c.grandparents);
    }
  }

  /** One file per call when some level is too large or some file was sought too often. */
  method PickCompaction(v: Version, sizeLevel: Option<nat>, pointers: seq<Option<InternalKey>>,
                        seek: Option<(nat, FileMeta)>, expandedLimit: nat)
      returns (c: Option<Compaction>)
    requires WellFormed(v) && NoRepeat(v[0]) && |pointers| == NUM_LEVELS
    requires sizeLevel.Some? ==> sizeLevel.value + 1 < NUM_LEVELS && v[sizeLevel.value] != []
    requires seek.Some? ==> seek.value.0 + 1 < NUM_LEVELS && seek.value.1 in v[seek.value.0]
    ensures c.None? <==> sizeLevel.None? && seek.None?
    ensures c.Some? ==> Legal(v, c.value.level, c.value.in0, c.value.in1)
    ensures c.Some? ==> Iterable(c.value.level, c.value.in0) && Ordered(c.value.in1)
    ensures c.Some? ==> Connected(c.value.in0 + c.value.in1) && Described(v, c.value)
    ensures c.Some? ==> c.value.level + 1 < NUM_LEVELS
                        && IsChosen(v, pointers, sizeLevel, seek, c.value.level, c.value.in0)
  {
    if sizeLevel.Some? {
      var seed := NextToCompact(v[sizeLevel.value], pointers[sizeLevel.value]);
      var compaction := CompactAround(v, sizeLevel.value, seed, expandedLimit);
      c := Some(compaction);
    } else if seek.Some? {
      var compaction := CompactAround(v, seek.value.0, seek.value.1, expandedLimit);
      c := Some(compaction);
    } else {
      c := None;
    }
  }

  ghost predicate IsNext(files: seq<FileMeta>, pointer: Option<InternalKey>, f: FileMeta) {
    var past := (g: FileMeta) => pointer.None? || Less(pointer.value, g.largest);
    exists i :: 0 <= i < |files| && f == files[i]
                && if past(f) then forall j :: 0 <= j < i ==> !past(files[j])
                   else i == 0 && forall g :: g in files ==> !past(g)
  }

  /** The first file that ends past the compaction pointer, or else the first of the level. */
  method NextToCompact(files: seq<FileMeta>, pointer: Option<InternalKey>) returns (f: FileMeta)
    requires files != []
    ensures IsNext(files, pointer, f)
  {
    for i := 0 to |files|
      invariant pointer.None? ==> i == 0
      invariant pointer.Some? ==> forall j :: 0 <= j < i ==> !Less(pointer.value, files[j].largest)
    {
      if pointer.None? || Less(pointer.value, files[i].largest) { return files[i]; }
    }
    f := files[0];
  }

  method CompactAround(v: Version, level: nat, seed: FileMeta, expandedLimit: nat) returns (c: Compaction)
    requires WellFormed(v) && NoRepeat(v[0]) && level + 1 < NUM_LEVELS && seed in v[level]
    ensures Legal(v, level, c.in0, c.in1) && Iterable(level, c.in0) && Ordered(c.in1) && Connected(c.in0 + c.in1)
    ensures c.level == level && seed in c.in0 && Described(v, c)
  {
    var picked := [seed];
    if level == 0 {
      var smallest, largest := GetRange(picked);
      ghost var r;
      picked, r := GetOverlappingInputs(v[0], 0, UserRange(smallest, largest));
      Level0Pick(v, seed, smallest, largest, r);
      OverlappingNoRepeat(v[0], r);
    } else {
      SingleIsPickable(v, level, seed);
    }
    assert seed in picked;
    var in0, in1, grandparents, pointer := SetupOtherInputs(v, level, picked, expandedLimit);
    c := Compaction(level, in0, in1, grandparents, pointer);
  }

  lemma Level0Pick(v: Version, seed: FileMeta, lo: InternalKey, hi: InternalKey, r: Range)
    requires WellFormed(v) && seed in v[0] && IsRange([seed], lo, hi)
    requires Closed(v[0], r) && Covers(r, UserRange(lo, hi)) && r.lo.Some? && r.hi.Some?
    requires Grown(v[0], UserRange(lo, hi), r)
    ensures seed in Overlapping(v[0], r)
    ensures Pickable(v, 0, Overlapping(v[0], r)) && Connected(Overlapping(v[0], r))
  {
    var picked := Overlapping(v[0], r);
    FileSpan(seed);
    assert [seed][0] == seed;
    assert seed in picked;
    OverlapIsPickable(v, 0, r);
    RangeIsConnected([seed], lo, hi);
    OverlapConnected(v, 0, [seed], lo, hi, r);
    SameFilesConnected([seed] + picked, picked);
  }

  lemma RangeIsConnected(fs: seq<FileMeta>, lo: InternalKey, hi: InternalKey)
    requires |fs| == 1 && IsRange(fs, lo, hi)
    ensures Connected(fs)
  {
    forall x | fs[0].smallest.user <= x <= fs[0].largest.user ensures CoveredAt(fs, x) {
      assert fs[0] in fs && InUserRange(fs[0], x);
    }
  }

  lemma SingleIsPickable(v: Version, level: nat, f: FileMeta)
    requires WellFormed(v) && 0 < level && level + 1 < NUM_LEVELS && f in v[level]
    ensures Pickable(v, level, [f]) && Connected([f])
  {
    forall g | g in v[level] && g !in [f] ensures LeftOf(g, [f]) || RightOf(g, [f]) {
      TwoFiles(v[level], f, g);
    }
    RangeIsConnected([f], f.smallest, f.largest);
  }

  /** The files up to the first one at which `limit` bytes are reached, or all of them. */
  ghost predicate UpToLimit(files: seq<FileMeta>, n: nat, limit: nat) {
    && 0 < n <= |files|
    && (forall k :: 0 < k < n ==> TotalFileSize(files[..k]) < limit)
    && (n < |files| ==> TotalFileSize(files[..n]) >= limit)
  }

  lemma PrefixOrdered(files: seq<FileMeta>, n: nat)
    requires Ordered(files) && n <= |files|
    ensures Ordered(files[..n])
  {}

  /** A user-requested compaction of `range`; on levels >= 1 it takes a prefix of the
      overlapping files, up to the first one at which `fileLimit` bytes are reached. */
  method CompactRange(v: Version, level: nat, range: Range, fileLimit: nat, expandedLimit: nat)
      returns (c: Option<Compaction>)
    requires WellFormed(v) && NoRepeat(v[0]) && level + 1 < NUM_LEVELS
    ensures c.None? <==> forall f :: f in v[level] ==> !Overlaps(f, range)
    ensures c.Some? ==> c.value.level == level && Legal(v, level, c.value.in0, c.value.in1) && Described(v, c.value)
    ensures c.Some? ==> Iterable(level, c.value.in0) && Ordered(c.value.in1)
    ensures c.Some? && level == 0 ==> forall f :: f in v[0] && Overlaps(f, range) ==> f in c.value.in0
    ensures c.Some? && level > 0 ==> exists n: nat :: UpToLimit(Overlapping(v[level], range), n, fileLimit) &&
                                                 Subset(Overlapping(v[level], range)[..n], c.value.in0)
  {
    hide Least, Grown, Covers, Legal, Ordered, NoRepeat, Convex, Closed, Overlaps, ValidFile, Meet;
    var inputs, r := GetOverlappingInputs(v[level], level, range);
    GrownIsEmpty(v[level], range, r);
    if inputs == [] { return None; }
    OverlapIsPickable(v, level, r);
    LevelIterable(v, level);
    OverlappingIterable(level, v[level], r);
    if level > 0 {
      ghost var all := inputs;
      var total, i := 0, 0;
      while i < |inputs|
        invariant 0 <= i <= |inputs| && inputs == all && total == TotalFileSize(all[..i])
        invariant forall k :: 0 < k <= i ==> TotalFileSize(all[..k]) < fileLimit
      {
        TotalFileSizeSnoc(all[..i], all[i]);
        assert all[..i] + [all[i]] == all[..i + 1];
        total := total + inputs[i].size;
        if total >= fileLimit {
          inputs := inputs[..i + 1];
          break;
        }
        i := i + 1;
      }
      assert UpToLimit(all, |inputs|, fileLimit) && inputs == all[..|inputs|];
      PrefixIsConvex(v[level], r, |inputs|);
      PrefixOrdered(all, |inputs|);
    }
    var in0, in1, grandparents, pointer := SetupOtherInputs(v, level, inputs, expandedLimit);
    c := Some(Compaction(level, in0, in1, grandparents, pointer));
  }

  /** A range that no file overlaps does not grow. */
  lemma GrownIsEmpty(files: seq<FileMeta>, range: Range, r: Range)
    requires AllValid(files) && Covers(r, range)
    requires Least(files, range, r)
    ensures Overlapping(files, r) == [] <==> forall f :: f in files ==> !Overlaps(f, range)
  {
    if forall f :: f in files ==> !Overlaps(f, range) {
      assert Closed(files, range) && Covers(range, r);
      forall f | f in files ensures !Overlaps(f, r) { assert !Overlaps(f, range); }
      if Overlapping(files, r) != [] { assert Overlapping(files, r)[0] in Overlapping(files, r); }
    } else {
      var f :| f in files && Overlaps(f, range);
      assert f in Overlapping(files, r);
    }
  }

  lemma PrefixIsConvex(files: seq<FileMeta>, r: Range, n: nat)
    requires AllValid(files) && Ordered(files) && 0 < n <= |Overlapping(files, r)|
    ensures Convex(files, Overlapping(files, r)[..n])
  {
    var fs := Overlapping(files, r);
    OverlappingIsConvex(files, r);
    OverlappingOrdered(files, r);
    forall g | g in files && g !in fs[..n] ensures LeftOf(g, fs[..n]) || RightOf(g, fs[..n]) {
      if g in fs {
        var j :| 0 <= j < |fs| && fs[j] == g;
        assert n <= j;
        assert RightOf(g, fs[..n]);
      }
    }
  }

  // ----- where a flushed memtable goes -----

  method SomeFileOverlapsRange(files: seq<FileMeta>, disjoint: bool, r: Range) returns (b: bool)
    requires AllValid(files) && (disjoint ==> Ordered(files))
    ensures b <==> exists f :: f in files && Overlaps(f, r)
  {
    if !disjoint {
      for i := 0 to |files|
        invariant forall j :: 0 <= j < i ==> !Overlaps(files[j], r)
      {
        if Overlaps(files[i], r) { return true; }
      }
      return false;
    }
    var index := 0;
    if r.lo.Some? {
      OrderedIsPartitioned(files, InternalKey(r.lo.value, MAX_SEQUENCE, TypeValue));
      index := FindFile(files, InternalKey(r.lo.value, MAX_SEQUENCE, TypeValue));
    }
    b := index < |files| && !BeforeFile(r.hi, files[index]);
    LevelOverlap(files, r, index);
  }

  lemma LevelOverlap(files: seq<FileMeta>, r: Range, index: nat)
    requires AllValid(files) && Ordered(files) && index <= |files|
    requires r.lo.None? ==> index == 0
    requires r.lo.Some? ==> forall i :: 0 <= i < index ==>
             Less(files[i].largest, InternalKey(r.lo.value, MAX_SEQUENCE, TypeValue))
    requires r.lo.Some? ==> forall i :: index <= i < |files| ==>
             !Less(files[i].largest, InternalKey(r.lo.value, MAX_SEQUENCE, TypeValue))
    ensures (index < |files| && !BeforeFile(r.hi, files[index])) <==> exists f :: f in files && Overlaps(f, r)
  {
    forall i | 0 <= i < |files| ensures r.lo.Some? ==> (AfterFile(r.lo, files[i]) <==> i < index) {
      var es := files[i].entries;
      assert ValidFile(files[i]) && es[|es|-1] in es;
    }
    if f :| f in files && Overlaps(f, r) {
      var i :| 0 <= i < |files| && files[i] == f;
      assert index <= i;
      FileSpan(files[index]);
      FileSpan(f);
    }
    if index < |files| && !BeforeFile(r.hi, files[index]) {
      assert files[index] in files && Overlaps(files[index], r);
    }
  }

  const MAX_MEM_COMPACT_LEVEL: nat := 2

  ghost predicate Clear(files: seq<FileMeta>, r: Range) {
    forall f :: f in files ==> !Overlaps(f, r)
  }

  method OverlappingBytes(v: Version, level: nat, r: Range) returns (sum: nat)
    requires WellFormed(v) && 0 < level < NUM_LEVELS
    ensures sum == TotalFileSize(Overlapping(v[level], r))
  {
    var overlaps, _ := GetOverlappingInputs(v[level], level, r);
    sum := TotalFileSize(overlaps);
  }

  method OverlapInLevel(v: Version, level: nat, r: Range) returns (b: bool)
    requires WellFormed(v) && level < NUM_LEVELS
    ensures b == !Clear(v[level], r)
  {
    b := SomeFileOverlapsRange(v[level], level > 0, r);
  }

  /** No file of levels 0 to `level` overlaps `r`. */
  ghost predicate ClearDownTo(v: Version, r: Range, level: nat)
    requires level < |v|
  {
    forall i :: 0 <= i <= level ==> Clear(v[i], r)
  }

  /** Every level from 2 to `level + 1` has at most `limit` bytes that overlap `r`. */
  ghost predicate LightDownTo(v: Version, r: Range, level: nat, limit: nat)
    requires level + 1 < |v|
  {
    forall i :: 2 <= i <= level + 1 ==> TotalFileSize(Overlapping(v[i], r)) <= limit
  }

  lemma OneLevelDown(v: Version, r: Range, level: nat, limit: nat)
    requires level + 2 < |v| && ClearDownTo(v, r, level) && LightDownTo(v, r, level, limit)
    requires Clear(v[level + 1], r) && TotalFileSize(Overlapping(v[level + 2], r)) <= limit
    ensures ClearDownTo(v, r, level + 1) && LightDownTo(v, r, level + 1, limit)
  {}

  lemma TopLevel(v: Version, r: Range, limit: nat)
    requires |v| > 1
    ensures LightDownTo(v, r, 0, limit)
    ensures ClearDownTo(v, r, 0) <==> Clear(v[0], r)
  {}

  /** Nothing overlaps `r` down to the level, and what overlaps it one level further down is light;
      and the level is the deepest one of which this holds, up to 2. */
  ghost predicate PlacedAt(v: Version, r: Range, level: nat, grandparentLimit: nat)
    requires |v| == NUM_LEVELS
  {
    && level <= MAX_MEM_COMPACT_LEVEL
    && (level > 0 ==> ClearDownTo(v, r, level))
    && LightDownTo(v, r, level, grandparentLimit)
    && (level < MAX_MEM_COMPACT_LEVEL ==>
          !Clear(v[0], r) || !Clear(v[level + 1], r)
            || TotalFileSize(Overlapping(v[level + 2], r)) > grandparentLimit)
  }

  /** Pushes a flushed table down while nothing overlaps it on the way and the next but one
      level has no more than `grandparentLimit` overlapping bytes. */
  method PickLevelForMemTableOutput(v: Version, r: Range, grandparentLimit: nat) returns (level: nat)
    requires WellFormed(v)
    ensures PlacedAt(v, r, level, grandparentLimit)
  {
    hide AllValid, Ordered, Clear, ClearDownTo, LightDownTo;
    level := 0;
    TopLevel(v, r, grandparentLimit);
    var overlap := OverlapInLevel(v, 0, r);
    if overlap { return; }
    while level < MAX_MEM_COMPACT_LEVEL
      invariant level <= MAX_MEM_COMPACT_LEVEL
      invariant ClearDownTo(v, r, level) && LightDownTo(v, r, level, grandparentLimit)
    {
      overlap := OverlapInLevel(v, level + 1, r);
      if overlap { break; }
      if level + 2 < NUM_LEVELS {
        var sum := OverlappingBytes(v, level + 2, r);
        if sum > grandparentLimit { break; }
      }
      OneLevelDown(v, r, level, grandparentLimit);
      level := level + 1;
    }
  }
}
