/** Sorted runs behind one merging iterator: the files of a version, the inputs of a merge. */
module Sources {
  import opened InternalKeys
  import opened Versions
  import opened Builders
  import opened Manifests
  import opened Merging
  import opened Installs
  import opened Inputs
  import opened Picking
  import opened Cursors
  import opened MergingIterators

  /** Entries of `E` that are not in `F`, and no version twice in both together. */
  ghost predicate Apart(E: set<Entry>, F: set<Entry>) {
    E !! F && UniqueVersions(E + F)
  }

  /** What is apart from a whole is apart from one part of it together with another. */
  lemma ApartWithin(E: set<Entry>, V: set<Entry>, A: set<Entry>, B: set<Entry>)
    requires Apart(E, V) && A <= V && B <= V && A !! B
    ensures Apart(E + A, B)
  {
    assert E + A + B <= E + V;
  }

  /** Two sorted runs have a sorted union. */
  lemma {:induction false} MergeRuns(a: seq<Entry>, b: seq<Entry>) returns (all: seq<Entry>)
    requires Sorted(a) && Sorted(b) && Apart(Elements(a), Elements(b))
    ensures Sorted(all) && Elements(all) == Elements(a) + Elements(b)
    decreases |a| + |b|
  {
    if a == [] {
      all := b;
    } else if b == [] {
      all := a;
    } else {
      HeadAndTail(a);
      HeadAndTail(b);
      assert a[0] in Elements(a) && b[0] in Elements(b);
      if Less(a[0].key, b[0].key) {
        var rest := MergeRuns(a[1..], b);
        all := Prepended(a[0], rest);
      } else {
        var rest := MergeRuns(a, b[1..]);
        all := Prepended(b[0], rest);
      }
    }
  }

  lemma HeadAndTail(a: seq<Entry>)
    requires Sorted(a) && a != []
    ensures Sorted(a[1..]) && Elements(a) == {a[0]} + Elements(a[1..])
    ensures forall e :: e in Elements(a[1..]) ==> Less(a[0].key, e.key)
  {
    assert a == [a[0]] + a[1..];
  }

  lemma Prepended(e: Entry, rest: seq<Entry>) returns (all: seq<Entry>)
    requires Sorted(rest) && forall x :: x in Elements(rest) ==> Less(e.key, x.key)
    ensures all == [e] + rest && Sorted(all) && Elements(all) == {e} + Elements(rest)
  {
    all := [e] + rest;
    forall i, j | 0 <= i < j < |all| ensures Less(all[i].key, all[j].key) {
      assert all[j] == rest[j - 1] && rest[j - 1] in Elements(rest);
    }
  }

  /** One more run behind the merging iterator. */
  lemma AddRun(all: seq<Entry>, runs: seq<seq<Entry>>, run: seq<Entry>) returns (all': seq<Entry>)
    requires IsUnion(all, runs) && Sorted(run) && Apart(Elements(all), Elements(run))
    ensures IsUnion(all', runs + [run]) && Elements(all') == Elements(all) + Elements(run)
  {
    all' := MergeRuns(all, run);
    var runs' := runs + [run];
    assert forall e :: e in all' <==> e in Elements(all');
    forall e | e in all' ensures exists i :: 0 <= i < |runs'| && e in runs'[i] {
      if e in Elements(all) {
        var i :| 0 <= i < |runs| && e in runs[i];
        assert runs'[i] == runs[i];
      } else {
        assert runs'[|runs|] == run;
      }
    }
    forall i, j, e | 0 <= i < j < |runs'| && e in runs'[i] ensures e !in runs'[j] {
      if j == |runs| { assert e in Elements(all); }
    }
  }

  /** The entries of levels 0 to `n - 1`. */
  ghost function UpTo(v: Version, n: nat): set<Entry>
    requires n <= |v|
  {
    if n == 0 then {} else UpTo(v, n - 1) + Contents(v[n - 1])
  }

  lemma {:induction false} UpToIn(v: Version, n: nat)
    requires n <= |v|
    ensures forall e :: e in UpTo(v, n) <==> exists i :: 0 <= i < n && e in Contents(v[i])
  {
    if n > 0 { UpToIn(v, n - 1); }
  }

  lemma AllLevels(v: Version)
    ensures UpTo(v, |v|) == EntriesOf(v)
  {
    UpToIn(v, |v|);
  }

  lemma LevelApart(v: Version, n: nat)
    requires ValidVersion(v) && n < |v|
    ensures UpTo(v, n) !! Contents(v[n])
  {
    UpToIn(v, n);
    forall e | e in UpTo(v, n) ensures e !in Contents(v[n]) {
      var i :| 0 <= i < n && e in Contents(v[i]);
      assert Above(v[i], v[n]);
      if e in Contents(v[n]) { LowerEntry(v[i], v[n], e, e); }
    }
  }

  /** The files of level 0 have no entry in common. */
  lemma FileApart(v: Version, n: nat)
    requires ValidVersion(v) && SortedVersion(v) && n < |v[0]|
    ensures Contents(v[0][..n]) !! Elements(v[0][n].entries)
  {
    var fs := v[0];
    assert SortedFiles(fs);
    forall e | e in Contents(fs[..n]) ensures e !in fs[n].entries {
      var f :| f in fs[..n] && e in f.entries;
      var i :| 0 <= i < n && fs[i] == f;
      assert BySmallest(fs[i], fs[n]);
      assert f in fs && fs[n] in fs;
      assert f.number != fs[n].number;
      assert Newer(f.entries, fs[n].entries) || Newer(fs[n].entries, f.entries);
    }
  }

  lemma OneMoreFile(fs: seq<FileMeta>, n: nat)
    requires n < |fs|
    ensures Contents(fs[..n + 1]) == Contents(fs[..n]) + Elements(fs[n].entries)
    ensures Elements(fs[n].entries) <= Contents(fs)
    ensures fs[..|fs|] == fs
  {
    assert fs[..n + 1] == fs[..n] + [fs[n]] && fs[n] in fs[..n + 1] && fs[n] in fs;
  }

  lemma LaterFile(fs: seq<FileMeta>, n: nat, e: Entry, x: Entry)
    requires AllValid(fs) && Ordered(fs) && n < |fs| && e in Contents(fs[..n]) && x in fs[n].entries
    ensures Less(e.key, x.key)
  {
    hide ValidFile;
    var g :| g in fs[..n] && e in g.entries;
    var i :| 0 <= i < n && fs[i] == g;
    assert Less(g.largest, fs[n].smallest) && g in fs && fs[n] in fs;
    EntryInRange(g, e);
    EntryInRange(fs[n], x);
  }

  lemma {:induction false} LevelRun(fs: seq<FileMeta>)
    requires AllValid(fs) && Ordered(fs)
    ensures Sorted(Flatten(fs)) && Elements(Flatten(fs)) == Contents(fs)
  {
    hide ValidFile, Ordered, AllValid;
    if fs == [] {
    } else {
      var front, f := fs[..|fs|-1], fs[|fs|-1];
      assert fs == front + [f];
      FrontFiles(fs);
      LevelRun(front);
      OneMoreFile(fs, |front|);
      assert fs[..|front| + 1] == fs;
      forall e, x | e in Flatten(front) && x in f.entries ensures Less(e.key, x.key) {
        assert e in Elements(Flatten(front));
        LaterFile(fs, |front|, e, x);
      }
      Concatenated(Flatten(front), f.entries);
    }
  }

  lemma FrontFiles(fs: seq<FileMeta>)
    requires AllValid(fs) && Ordered(fs) && fs != []
    ensures AllValid(fs[..|fs|-1]) && Ordered(fs[..|fs|-1]) && Sorted(fs[|fs|-1].entries)
  {
    assert fs[|fs|-1] in fs;
  }

  lemma Concatenated(a: seq<Entry>, b: seq<Entry>)
    requires Sorted(a) && Sorted(b) && forall e, x :: e in a && x in b ==> Less(e.key, x.key)
    ensures Sorted(a + b) && Elements(a + b) == Elements(a) + Elements(b)
  {}

  // ----- the iterators -----

  ghost function RunsOf(children: seq<Cursor>): seq<seq<Entry>> {
    seq(|children|, i requires 0 <= i < |children| => children[i].entries)
  }

  /** `children` are cursors over runs whose sorted union is `all`. */
  ghost predicate Behind(children: seq<Cursor>, all: seq<Entry>) {
    && IsUnion(all, RunsOf(children))
    && forall i, j :: 0 <= i < j < |children| ==> children[i] != children[j]
  }

  method AddChild(children: seq<Cursor>, ghost all: seq<Entry>, run: seq<Entry>)
      returns (r: seq<Cursor>, ghost all': seq<Entry>)
    requires Behind(children, all) && Sorted(run) && Apart(Elements(all), Elements(run))
    ensures Behind(r, all') && Elements(all') == Elements(all) + Elements(run)
    ensures |r| == |children| + 1 && r[..|children|] == children && fresh(r[|children|])
  {
    var c := new Cursor(run);
    r := children + [c];
    all' := AddRun(all, RunsOf(children), run);
    assert RunsOf(r) == RunsOf(children) + [run];
  }

  /** Every file of level 0, and the concatenation of every deeper level that has files. */
  method AddIterators(v: Version, children: seq<Cursor>, ghost all: seq<Entry>)
      returns (r: seq<Cursor>, ghost all': seq<Entry>)
    requires ValidVersion(v) && SortedVersion(v) && Behind(children, all) && Apart(Elements(all), EntriesOf(v))
    ensures Behind(r, all') && Elements(all') == Elements(all) + EntriesOf(v)
    ensures |children| <= |r| && r[..|children|] == children && forall i :: |children| <= i < |r| ==> fresh(r[i])
  {
    hide Behind, Apart, ValidVersion, SortedVersion, UpTo;
    r, all' := children, all;
    StartLevels(v, Elements(all));
    var n := |v[0]|;
    for i := 0 to n
      invariant |v| == NUM_LEVELS && n == |v[0]| && Behind(r, all')
                && Elements(all') == Elements(all) + Contents(v[0][..i])
      invariant |children| <= |r| && r[..|children|] == children && forall i :: |children| <= i < |r| ==> fresh(r[i])
    {
      NextFile(v, Elements(all), i);
      r, all' := AddChild(r, all', v[0][i].entries);
    }
    assert v[0][..n] == v[0];
    LevelZero(v);
    for level := 1 to NUM_LEVELS
      invariant |v| == NUM_LEVELS && Behind(r, all') && Elements(all') == Elements(all) + UpTo(v, level)
      invariant |children| <= |r| && r[..|children|] == children && forall i :: |children| <= i < |r| ==> fresh(r[i])
    {
      NextLevel(v, Elements(all), level);
      if v[level] != [] {
        r, all' := AddChild(r, all', Flatten(v[level]));
      }
    }
    AllLevels(v);
  }

  lemma StartLevels(v: Version, E: set<Entry>)
    requires ValidVersion(v)
    ensures |v| == NUM_LEVELS && E + Contents(v[0][..0]) == E
  {}

  lemma LevelZero(v: Version)
    requires |v| > 0
    ensures UpTo(v, 1) == Contents(v[0])
  {}

  lemma NextFile(v: Version, E: set<Entry>, n: nat)
    requires ValidVersion(v) && SortedVersion(v) && n < |v[0]| && Apart(E, EntriesOf(v))
    ensures Sorted(v[0][n].entries) && Apart(E + Contents(v[0][..n]), Elements(v[0][n].entries))
    ensures E + Contents(v[0][..n + 1]) == E + Contents(v[0][..n]) + Elements(v[0][n].entries)
  {
    hide ValidVersion, SortedVersion, Apart;
    StartLevels(v, E);
    FileApart(v, n);
    OneMoreFile(v[0], n);
    FilesSorted(v, 0);
    assert Contents(v[0][..n]) <= Contents(v[0]) <= EntriesOf(v);
    ApartWithin(E, EntriesOf(v), Contents(v[0][..n]), Elements(v[0][n].entries));
  }

  lemma FilesSorted(v: Version, l: nat)
    requires ValidVersion(v) && l < |v|
    ensures AllValid(v[l]) && forall i :: 0 <= i < |v[l]| ==> Sorted(v[l][i].entries)
    ensures l > 0 ==> Ordered(v[l])
  {
    forall i | 0 <= i < |v[l]| ensures Sorted(v[l][i].entries) { assert ValidFile(v[l][i]); }
  }

  lemma NextLevel(v: Version, E: set<Entry>, n: nat)
    requires ValidVersion(v) && 1 <= n < |v| && Apart(E, EntriesOf(v))
    ensures Sorted(Flatten(v[n])) && Apart(E + UpTo(v, n), Elements(Flatten(v[n])))
    ensures E + UpTo(v, n + 1) == E + UpTo(v, n) + Elements(Flatten(v[n]))
    ensures v[n] == [] ==> E + UpTo(v, n + 1) == E + UpTo(v, n)
  {
    hide ValidVersion, Apart, AllValid, Ordered;
    LevelApart(v, n);
    FilesSorted(v, n);
    LevelRun(v[n]);
    UpToIn(v, n);
    assert UpTo(v, n) <= EntriesOf(v) && Contents(v[n]) <= EntriesOf(v);
    ApartWithin(E, EntriesOf(v), UpTo(v, n), Contents(v[n]));
  }

  method MergeAll(children: seq<Cursor>, ghost all: seq<Entry>) returns (iter: MergingIterator)
    requires Behind(children, all)
    ensures fresh(iter) && iter.Inv() && iter.children == children && iter.all == all
  {
    iter := new MergingIterator(children, all);
  }

  lemma Nobody()
    ensures Behind([], []) && Elements([]) == {}
  {
    assert RunsOf([]) == [];
  }

  // ----- the inputs of a merge -----

  /** No entry is in two of the inputs, and they are listed so that they can be run through. */
  ghost predicate InputsApart(level: nat, in0: seq<FileMeta>, in1: seq<FileMeta>) {
    && AllValid(in0) && AllValid(in1) && Iterable(level, in0) && Ordered(in1)
    && (level == 0 ==> forall f, g :: f in in0 && g in in0 && f != g ==> Elements(f.entries) !! Elements(g.entries))
    && Apart(Contents(in0), Contents(in1))
  }

  /** Files of a valid version are apart. */
  lemma VersionInputs(v: Version, level: nat, in0: seq<FileMeta>, in1: seq<FileMeta>)
    requires ValidVersion(v) && UniqueVersions(EntriesOf(v)) && level + 1 < |v|
    requires Subset(in0, v[level]) && Subset(in1, v[level + 1]) && Iterable(level, in0) && Ordered(in1)
    ensures InputsApart(level, in0, in1)
  {
    hide ValidFile;
    if level == 0 { TwoFilesApart(v); }
    assert Above(v[level], v[level + 1]);
    forall e | e in Contents(in0) ensures e !in Contents(in1) && e in Contents(v[level]) {
      var f :| f in in0 && e in f.entries;
      if e in Contents(in1) {
        var g :| g in in1 && e in g.entries;
        NewerEntry(f.entries, g.entries, e, e);
      }
    }
    assert Contents(in0) + Contents(in1) <= EntriesOf(v);
  }

  lemma TwoFilesApart(v: Version)
    requires ValidVersion(v)
    ensures forall f, g :: f in v[0] && g in v[0] && f != g ==> Elements(f.entries) !! Elements(g.entries)
  {
    forall f, g | f in v[0] && g in v[0] && f != g ensures Elements(f.entries) !! Elements(g.entries) {
      assert f.number != g.number;
      assert Newer(f.entries, g.entries) || Newer(g.entries, f.entries);
    }
  }

  /** One run for each file of level 0, or one for all files of a deeper level; one for the
      files of the next level. */
  method MakeInputIterator(level: nat, in0: seq<FileMeta>, in1: seq<FileMeta>) returns (iter: MergingIterator)
    requires InputsApart(level, in0, in1)
    ensures fresh(iter) && iter.Inv() && (forall i :: 0 <= i < |iter.children| ==> fresh(iter.children[i]))
    ensures Elements(iter.all) == Contents(in0 + in1)
  {
    hide Behind, InputsApart, Apart, MergingIterator.Inv;
    var list: seq<Cursor> := [];
    ghost var all: seq<Entry> := [];
    Nobody();
    if level == 0 {
      for i := 0 to |in0|
        invariant Behind(list, all) && Elements(all) == Contents(in0[..i])
        invariant forall i :: 0 <= i < |list| ==> fresh(list[i])
      {
        NextInput(in0, in1, i);
        list, all := AddChild(list, all, in0[i].entries);
      }
      assert in0[..|in0|] == in0;
    } else if in0 != [] {
      UpperRun(level, in0, in1);
      list, all := AddChild(list, all, Flatten(in0));
    }
    assert Elements(all) == Contents(in0);
    LowerRun(level, in0, in1);
    if in1 != [] {
      list, all := AddChild(list, all, Flatten(in1));
    }
    iter := MergeAll(list, all);
  }

  lemma NextInput(in0: seq<FileMeta>, in1: seq<FileMeta>, n: nat)
    requires InputsApart(0, in0, in1) && n < |in0|
    ensures Sorted(in0[n].entries) && Apart(Contents(in0[..n]), Elements(in0[n].entries))
    ensures Contents(in0[..n + 1]) == Contents(in0[..n]) + Elements(in0[n].entries)
  {
    OneMoreFile(in0, n);
    assert ValidFile(in0[n]) && in0[n] in in0;
    forall e | e in Contents(in0[..n]) ensures e !in Elements(in0[n].entries) && e in Contents(in0) {
      var f :| f in in0[..n] && e in f.entries;
      assert f in in0 && f != in0[n];
    }
    assert Contents(in0[..n]) + Elements(in0[n].entries) <= Contents(in0) + Contents(in1);
  }

  lemma UpperRun(level: nat, in0: seq<FileMeta>, in1: seq<FileMeta>)
    requires InputsApart(level, in0, in1) && level > 0
    ensures Sorted(Flatten(in0)) && Elements(Flatten(in0)) == Contents(in0) && Apart({}, Contents(in0))
  {
    LevelRun(in0);
    assert {} + Contents(in0) <= Contents(in0) + Contents(in1);
  }

  lemma LowerRun(level: nat, in0: seq<FileMeta>, in1: seq<FileMeta>)
    requires InputsApart(level, in0, in1)
    ensures Sorted(Flatten(in1)) && Elements(Flatten(in1)) == Contents(in1) && Apart(Contents(in0), Contents(in1))
    ensures Contents(in0 + in1) == Contents(in0) + Contents(in1)
    ensures in1 == [] ==> Contents(in1) == {}
  {
    LevelRun(in1);
  }
}
