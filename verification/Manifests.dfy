/** Replaying a manifest: all edits in one builder give the version that logging them one by one gave. */
module Manifests {
  import opened InternalKeys
  import opened Versions
  import opened Builders

  /** Every edit accumulated in one builder. */
  function Accumulated(edits: seq<FileEdit>): BuilderState {
    if edits == [] then NOTHING else Applied(Accumulated(edits[..|edits|-1]), edits[|edits|-1])
  }

  /** One new version per edit. */
  function OneByOne(v: Version, edits: seq<FileEdit>): (r: Version)
    requires |v| == NUM_LEVELS
    ensures |r| == NUM_LEVELS
  {
    if edits == [] then v else Edited(OneByOne(v, edits[..|edits|-1]), edits[|edits|-1])
  }

  ghost predicate SortedVersion(v: Version) {
    |v| == NUM_LEVELS && forall l :: 0 <= l < NUM_LEVELS ==> SortedFiles(v[l])
  }

  /** A file number enters a level at most once. */
  ghost predicate EntersOnce(v: Version, edits: seq<FileEdit>)
    requires |v| == NUM_LEVELS
  {
    edits == [] ||
    var n := |edits| - 1;
    && EntersOnce(v, edits[..n])
    && forall l :: 0 <= l < NUM_LEVELS ==> FreshAt(v, Accumulated(edits[..n]), edits[n], l)
  }

  ghost predicate FreshAt(v: Version, state: BuilderState, edit: FileEdit, l: nat)
    requires l < NUM_LEVELS == |v|
  {
    FreshNumbers(v[l], edit.added, l) && FreshNumbers(state[l].added, edit.added, l)
  }

  /** The added files of a level are sorted and have numbers that the base level does not use. */
  ghost predicate GoodState(v: Version, state: BuilderState, l: nat)
    requires l < NUM_LEVELS == |v|
  {
    && SortedFiles(state[l].added)
    && forall f, g :: f in v[l] && g in state[l].added ==> f.number != g.number
  }

  lemma GoodStateStep(v: Version, state: BuilderState, edit: FileEdit, l: nat)
    requires l < NUM_LEVELS == |v| && GoodState(v, state, l) && FreshAt(v, state, edit, l)
    ensures GoodState(v, Applied(state, edit), l)
  {
    var start := state[l].(deleted := state[l].deleted + DeletedAt(edit, l));
    AddFilesMembers(start, edit.added, l);
    var s := Applied(state, edit)[l];
    forall f, g | f in v[l] && g in s.added ensures f.number != g.number {
      if g !in state[l].added { var i :| 0 <= i < |edit.added| && edit.added[i] == (l, g); }
    }
  }

  lemma SaveCommutes(v: Version, state: BuilderState, edit: FileEdit, l: nat)
    requires SortedVersion(v) && l < NUM_LEVELS && GoodState(v, state, l) && FreshAt(v, state, edit, l)
    requires SortedFiles(Saved(v, state)[l])
    requires forall f :: f in Saved(v, state)[l] <==>
             (f in v[l] || f in state[l].added) && f.number !in state[l].deleted
    ensures Saved(v, Applied(state, edit))[l] == Edited(Saved(v, state), edit)[l]
    ensures SortedFiles(Saved(v, Applied(state, edit))[l])
  {
    SavedMembers(v[l], state[l], edit, l);
    EditedMembers(Saved(v, state), edit, l);
    SortedFilesUnique(Saved(v, Applied(state, edit))[l], Edited(Saved(v, state), edit)[l]);
  }

  lemma SavedIs(v: Version, state: BuilderState, l: nat)
    requires SortedVersion(v) && l < NUM_LEVELS && GoodState(v, state, l)
    ensures SortedFiles(Saved(v, state)[l])
    ensures forall f :: f in Saved(v, state)[l] <==> (f in v[l] || f in state[l].added) && f.number !in state[l].deleted
  {
    MergeMembers(v[l], state[l].added);
    UndeletedMembers(Merge(v[l], state[l].added), state[l].deleted);
  }

  lemma {:induction false} ReplayStep(v: Version, edits: seq<FileEdit>)
    requires SortedVersion(v) && EntersOnce(v, edits)
    ensures forall l :: 0 <= l < NUM_LEVELS ==> GoodState(v, Accumulated(edits), l)
    ensures Saved(v, Accumulated(edits)) == OneByOne(v, edits)
  {
    if edits == [] {
      forall l | 0 <= l < NUM_LEVELS ensures Saved(v, NOTHING)[l] == v[l] && GoodState(v, NOTHING, l) {
        assert NOTHING[l] == EMPTY;
        UndeletedNothing(v[l]);
      }
      assert Saved(v, NOTHING) == v;
    } else {
      var n := |edits| - 1;
      var state, edit := Accumulated(edits[..n]), edits[n];
      ReplayStep(v, edits[..n]);
      forall l | 0 <= l < NUM_LEVELS
        ensures GoodState(v, Applied(state, edit), l)
        ensures Saved(v, Applied(state, edit))[l] == Edited(Saved(v, state), edit)[l]
      {
        assert FreshAt(v, state, edit, l) && GoodState(v, state, l);
        GoodStateStep(v, state, edit, l);
        SavedIs(v, state, l);
        SaveCommutes(v, state, edit, l);
      }
      assert Saved(v, Applied(state, edit)) == Edited(Saved(v, state), edit);
    }
  }

  lemma UndeletedNothing(fs: seq<FileMeta>)
    ensures Undeleted(fs, {}) == fs
  {}

  /** Accumulating all edits and saving once is applying them one version at a time. */
  lemma ReplayIsOneByOne(v: Version, edits: seq<FileEdit>)
    requires SortedVersion(v) && EntersOnce(v, edits)
    ensures Saved(v, Accumulated(edits)) == OneByOne(v, edits)
    ensures SortedVersion(OneByOne(v, edits))
  {
    ReplayStep(v, edits);
    forall l | 0 <= l < NUM_LEVELS ensures SortedFiles(OneByOne(v, edits)[l]) {
      SavedIs(v, Accumulated(edits), l);
    }
  }

  /** Without that proviso replay is wrong: a number that comes back to a level revives
      the deleted file that had it. */
  lemma ReusedNumberRevivesFile(f: FileMeta, g: FileMeta)
    requires f.number == g.number && Less(f.smallest, g.smallest)
    ensures var v: Version := [[f], [], [], [], [], [], []];
            var edits := [FileEdit({(0, f.number)}, []), FileEdit({}, [(0, g)])];
            && OneByOne(v, edits)[0] == [g]
            && Saved(v, Accumulated(edits))[0] == [f, g]
  {
    var v: Version := [[f], [], [], [], [], [], []];
    var d, a := FileEdit({(0, f.number)}, []), FileEdit({}, [(0, g)]);
    assert [d, a][..1] == [d] && [d][..0] == [];
    assert NOTHING[0] == EMPTY && DeletedAt(d, 0) == {f.number} && DeletedAt(a, 0) == {};
    assert Accumulated([d])[0] == LevelState({f.number}, []);
    AddOne(LevelState({f.number}, []), 0, g);
    assert {f.number} + DeletedAt(a, 0) == {f.number};
    assert Accumulated([d, a])[0] == LevelState({}, [g]);
    assert Merge([f], [g]) == [f, g];
    UndeletedNothing([f, g]);
    assert OneByOne(v, []) == v;
    assert OneByOne(v, [d]) == Edited(v, d);
    assert Applied(NOTHING, d)[0] == LevelState({f.number}, []);
    assert Edited(v, d)[0] == SavedAt([f], LevelState({f.number}, []));
    UndeletedAll(f);
    AddOne(EMPTY, 0, g);
    assert {} + DeletedAt(a, 0) == {};
    assert Applied(NOTHING, a)[0] == LevelState({}, [g]);
    UndeletedNothing([g]);
  }

  lemma UndeletedAll(f: FileMeta)
    ensures SavedAt([f], LevelState({f.number}, [])) == []
  {
    assert Merge([f], []) == [f];
    assert f.number in {f.number};
    assert [f][1..] == [];
    assert Undeleted([f][1..], {f.number}) == [];
  }

  lemma AddOne(state: LevelState, level: nat, f: FileMeta)
    requires state.added == []
    ensures AddFiles(state, [(level, f)], level) == LevelState(state.deleted - {f.number}, [f])
  {
    assert [(level, f)][..0] == [];
  }

  // ----- a snapshot of the current version as one edit -----

  const NO_FILES: Version := [[], [], [], [], [], [], []]

  function At(level: nat, fs: seq<FileMeta>): seq<(nat, FileMeta)> {
    if fs == [] then [] else At(level, fs[..|fs|-1]) + [(level, fs[|fs|-1])]
  }

  function AllFiles(v: Version, n: nat): seq<(nat, FileMeta)>
    requires n <= |v|
  {
    if n == 0 then [] else AllFiles(v, n - 1) + At(n - 1, v[n - 1])
  }

  method WriteSnapshot(v: Version) returns (edit: FileEdit)
    requires |v| == NUM_LEVELS
    ensures edit == FileEdit({}, AllFiles(v, NUM_LEVELS))
  {
    var added: seq<(nat, FileMeta)> := [];
    for level := 0 to NUM_LEVELS
      invariant added == AllFiles(v, level)
    {
      for i := 0 to |v[level]|
        invariant added == AllFiles(v, level) + At(level, v[level][..i])
      {
        assert v[level][..i + 1][..i] == v[level][..i];
        added := added + [(level, v[level][i])];
      }
      assert v[level][..|v[level]|] == v[level];
    }
    edit := FileEdit({}, added);
  }

  lemma {:induction false} AtMembers(level: nat, fs: seq<FileMeta>)
    ensures |At(level, fs)| == |fs|
    ensures forall i :: 0 <= i < |fs| ==> At(level, fs)[i] == (level, fs[i])
  {
    if fs != [] { AtMembers(level, fs[..|fs|-1]); }
  }

  lemma {:induction false} AllFilesMembers(v: Version, n: nat)
    requires n <= |v| == NUM_LEVELS
    ensures forall l: nat, f :: AddedAt(AllFiles(v, n), l, f) <==> l < n && f in v[l]
  {
    if n > 0 {
      AllFilesMembers(v, n - 1);
      var l, fs := n - 1, v[n - 1];
      AtMembers(l, fs);
      forall f ensures (l, f) in At(l, fs) <==> f in fs {
        if f in fs { var i :| 0 <= i < |fs| && fs[i] == f; assert At(l, fs)[i] == (l, f); }
      }
      forall k: nat, f
        ensures AddedAt(AllFiles(v, n), k, f) <==> AddedAt(AllFiles(v, n - 1), k, f) || (k, f) in At(l, fs) {}
    }
  }

  ghost predicate LevelNumbersDiffer(v: Version) {
    forall l, i, j :: 0 <= l < |v| && 0 <= i < j < |v[l]| ==> v[l][i].number != v[l][j].number
  }

  lemma {:induction false} AllFilesFresh(v: Version, n: nat, l: nat)
    requires n <= |v| == NUM_LEVELS && l < NUM_LEVELS && LevelNumbersDiffer(v)
    ensures FreshNumbers([], AllFiles(v, n), l)
  {
    if n > 0 {
      AllFilesFresh(v, n - 1, l);
      AllFilesMembers(v, n - 1);
      AtMembers(n - 1, v[n - 1]);
      var a: seq<(nat, FileMeta)>, b: seq<(nat, FileMeta)> := AllFiles(v, n - 1), At(n - 1, v[n - 1]);
      var all: seq<(nat, FileMeta)> := a + b;
      forall i, j | 0 <= i < j < |all| && all[i].0 == l && all[j].0 == l
        ensures all[i].1.number != all[j].1.number
      {
        if i < |a| <= j { assert AddedAt(a, a[i].0, a[i].1); }
      }
    }
  }

  /** Reading a manifest that starts with a snapshot of `v` and continues with `edits`
      rebuilds the version those edits led to. */
  lemma RecoverRebuildsVersion(v: Version, edits: seq<FileEdit>)
    requires SortedVersion(v) && LevelNumbersDiffer(v)
    requires EntersOnce(NO_FILES, [FileEdit({}, AllFiles(v, NUM_LEVELS))] + edits)
    ensures Saved(NO_FILES, Accumulated([FileEdit({}, AllFiles(v, NUM_LEVELS))] + edits)) == OneByOne(v, edits)
  {
    var snapshot := FileEdit({}, AllFiles(v, NUM_LEVELS));
    assert SortedVersion(NO_FILES);
    ReplayIsOneByOne(NO_FILES, [snapshot] + edits);
    SnapshotRebuilds(v);
    OneByOneStartsWith(snapshot, v, edits);
  }

  lemma SnapshotRebuilds(v: Version)
    requires SortedVersion(v) && LevelNumbersDiffer(v)
    ensures Edited(NO_FILES, FileEdit({}, AllFiles(v, NUM_LEVELS))) == v
  {
    var snapshot := FileEdit({}, AllFiles(v, NUM_LEVELS));
    AllFilesMembers(v, NUM_LEVELS);
    forall l | 0 <= l < NUM_LEVELS ensures Edited(NO_FILES, snapshot)[l] == v[l] {
      AllFilesFresh(v, NUM_LEVELS, l);
      assert NO_FILES[l] == [];
      EditedMembers(NO_FILES, snapshot, l);
      SortedFilesUnique(Edited(NO_FILES, snapshot)[l], v[l]);
    }
  }

  lemma {:induction false} OneByOneStartsWith(first: FileEdit, v: Version, edits: seq<FileEdit>)
    requires |v| == NUM_LEVELS && Edited(NO_FILES, first) == v
    ensures OneByOne(NO_FILES, [first] + edits) == OneByOne(v, edits)
  {
    if edits == [] {
      assert [first] + edits == [first] && [first][..0] == [];
      assert OneByOne(NO_FILES, []) == NO_FILES;
    } else {
      var n := |edits| - 1;
      OneByOneStartsWith(first, v, edits[..n]);
      assert ([first] + edits)[..n + 1] == [first] + edits[..n];
    }
  }
}
