/** Applying version edits: one at a time when they are logged, all together when a manifest is replayed. */
module Builders {
  import opened InternalKeys
  import opened Versions

  /** What an edit says about files; its other fields are in module `Recovery`. */
  datatype FileEdit = FileEdit(deleted: set<(nat, nat)>, added: seq<(nat, FileMeta)>)

  predicate BySmallest(a: FileMeta, b: FileMeta) {
    Less(a.smallest, b.smallest) || (!Less(b.smallest, a.smallest) && a.number < b.number)
  }

  ghost predicate SortedFiles(fs: seq<FileMeta>) {
    forall i, j :: 0 <= i < j < |fs| ==> BySmallest(fs[i], fs[j])
  }

  /** Insertion into an ordered set: an element that compares equal stays. */
  function Insert(fs: seq<FileMeta>, f: FileMeta): seq<FileMeta> {
    if fs == [] then [f]
    else if BySmallest(f, fs[0]) then [f] + fs
    else if BySmallest(fs[0], f) then [fs[0]] + Insert(fs[1..], f)
    else fs
  }

  /** Accumulated edits, level by level. */
  datatype LevelState = LevelState(deleted: set<nat>, added: seq<FileMeta>)

  type BuilderState = s: seq<LevelState> | |s| == NUM_LEVELS witness NOTHING

  const EMPTY: LevelState := LevelState({}, [])
  const NOTHING: seq<LevelState> := [EMPTY, EMPTY, EMPTY, EMPTY, EMPTY, EMPTY, EMPTY]

  ghost predicate ValidEdit(edit: FileEdit) {
    && (forall d :: d in edit.deleted ==> d.0 < NUM_LEVELS)
    && (forall i :: 0 <= i < |edit.added| ==> edit.added[i].0 < NUM_LEVELS)
  }

  function DeletedAt(edit: FileEdit, level: nat): set<nat> {
    set d | d in edit.deleted && d.0 == level :: d.1
  }

  function AddFiles(state: LevelState, added: seq<(nat, FileMeta)>, level: nat): LevelState {
    if added == [] then state
    else
      var n := |added| - 1;
      var s := AddFiles(state, added[..n], level);
      if added[n].0 == level then LevelState(s.deleted - {added[n].1.number}, Insert(s.added, added[n].1)) else s
  }

  function ApplyAt(state: LevelState, edit: FileEdit, level: nat): LevelState {
    AddFiles(state.(deleted := state.deleted + DeletedAt(edit, level)), edit.added, level)
  }

  function AppliedUpTo(state: BuilderState, edit: FileEdit, n: nat): (r: seq<LevelState>)
    requires n <= NUM_LEVELS
    ensures |r| == n && forall l :: 0 <= l < n ==> r[l] == ApplyAt(state[l], edit, l)
  {
    if n == 0 then [] else AppliedUpTo(state, edit, n - 1) + [ApplyAt(state[n - 1], edit, n - 1)]
  }

  function Applied(state: BuilderState, edit: FileEdit): BuilderState {
    AppliedUpTo(state, edit, NUM_LEVELS)
  }

  /** Merges two sorted runs; base files come first among equals. */
  function Merge(base: seq<FileMeta>, added: seq<FileMeta>): seq<FileMeta>
    decreases |base| + |added|
  {
    if added == [] then base
    else if base == [] then added
    else if BySmallest(added[0], base[0]) then [added[0]] + Merge(base, added[1..])
    else [base[0]] + Merge(base[1..], added)
  }

  function Undeleted(fs: seq<FileMeta>, deleted: set<nat>): seq<FileMeta> {
    if fs == [] then []
    else (if fs[0].number in deleted then [] else [fs[0]]) + Undeleted(fs[1..], deleted)
  }

  function SavedAt(base: seq<FileMeta>, state: LevelState): seq<FileMeta> {
    Undeleted(Merge(base, state.added), state.deleted)
  }

  function SavedUpTo(base: Version, state: BuilderState, n: nat): (r: Version)
    requires n <= NUM_LEVELS == |base|
    ensures |r| == n && forall l :: 0 <= l < n ==> r[l] == SavedAt(base[l], state[l])
  {
    if n == 0 then [] else SavedUpTo(base, state, n - 1) + [SavedAt(base[n - 1], state[n - 1])]
  }

  function Saved(base: Version, state: BuilderState): Version
    requires |base| == NUM_LEVELS
  {
    SavedUpTo(base, state, NUM_LEVELS)
  }

  /** The version that logging `edit` installs. */
  function Edited(v: Version, edit: FileEdit): Version
    requires |v| == NUM_LEVELS
  {
    Saved(v, Applied(NOTHING, edit))
  }

  // ----- the code -----

  class Builder {
    const base: Version
    var state: BuilderState

    constructor (base: Version)
      ensures this.base == base && state == NOTHING
    {
      this.base := base;
      state := NOTHING;
    }

    method Apply(edit: FileEdit)
      requires ValidEdit(edit)
      modifies this
      ensures state == Applied(old(state), edit)
    {
      var s: seq<LevelState> := state;
      for level := 0 to NUM_LEVELS
        invariant |s| == NUM_LEVELS
        invariant forall l :: 0 <= l < level ==> s[l] == state[l].(deleted := state[l].deleted + DeletedAt(edit, l))
        invariant forall l :: level <= l < NUM_LEVELS ==> s[l] == state[l]
      {
        s := s[level := s[level].(deleted := s[level].deleted + DeletedAt(edit, level))];
      }
      for i := 0 to |edit.added|
        invariant |s| == NUM_LEVELS
        invariant forall l :: 0 <= l < NUM_LEVELS ==>
                    s[l] == AddFiles(state[l].(deleted := state[l].deleted + DeletedAt(edit, l)), edit.added[..i], l)
      {
        var level, f := edit.added[i].0, edit.added[i].1;
        assert edit.added[..i + 1][..i] == edit.added[..i];
        s := s[level := LevelState(s[level].deleted - {f.number}, Insert(s[level].added, f))];
      }
      assert edit.added[..|edit.added|] == edit.added;
      state := s;
      assert state == Applied(old(state), edit);
    }

    method SaveTo() returns (v: Version)
      requires |base| == NUM_LEVELS && forall l :: 0 <= l < NUM_LEVELS ==> SortedFiles(base[l])
      ensures v == Saved(base, state)
    {
      v := [];
      for level := 0 to NUM_LEVELS
        invariant |v| == level
        invariant forall l :: 0 <= l < level ==> v[l] == SavedAt(base[l], state[l])
      {
        var files := SaveLevel(base[level], state[level]);
        v := v + [files];
      }
      assert v == Saved(base, state);
    }
  }

  /** The first position from `from` on whose file is greater than `f`. */
  method UpperBound(files: seq<FileMeta>, from: nat, f: FileMeta) returns (pos: nat)
    requires SortedFiles(files) && from <= |files|
    ensures from <= pos <= |files|
    ensures forall i :: from <= i < pos ==> !BySmallest(f, files[i])
    ensures forall i :: pos <= i < |files| ==> BySmallest(f, files[i])
  {
    pos := from;
    var right := |files|;
    while pos < right
      invariant from <= pos <= right <= |files|
      invariant forall i :: from <= i < pos ==> !BySmallest(f, files[i])
      invariant forall i :: right <= i < |files| ==> BySmallest(f, files[i])
    {
      var mid := (pos + right) / 2;
      if BySmallest(f, files[mid]) { right := mid; } else { pos := mid + 1; }
    }
  }

  method MaybeAddFile(files: seq<FileMeta>, f: FileMeta, deleted: set<nat>, ghost rest: seq<FileMeta>)
      returns (r: seq<FileMeta>)
    ensures r + Undeleted(rest, deleted) == files + Undeleted([f] + rest, deleted)
  {
    r := if f.number in deleted then files else files + [f];
    assert ([f] + rest)[1..] == rest;
  }

  method SaveLevel(base: seq<FileMeta>, state: LevelState) returns (files: seq<FileMeta>)
    requires SortedFiles(base)
    ensures files == SavedAt(base, state)
  {
    hide BySmallest, SortedFiles, Merge, Undeleted;
    MergeNothing(base);
    assert base[0..] == base && state.added[0..] == state.added;
    files := [];
    var k := 0;
    for i := 0 to |state.added|
      invariant 0 <= k <= |base|
      invariant files + Undeleted(Merge(base[k..], state.added[i..]), state.deleted) == SavedAt(base, state)
    {
      var f := state.added[i];
      ghost var added := state.added[i..];
      assert added[0] == f && added[1..] == state.added[i + 1..];
      var bpos := UpperBound(base, k, f);
      while k < bpos
        invariant k <= bpos <= |base|
        invariant forall j :: k <= j < bpos ==> !BySmallest(f, base[j])
        invariant files + Undeleted(Merge(base[k..], added), state.deleted) == SavedAt(base, state)
      {
        MergeBaseFirst(base, k, added);
        files := MaybeAddFile(files, base[k], state.deleted, Merge(base[k + 1..], added));
        k := k + 1;
      }
      MergeAddedFirst(base[k..], added);
      files := MaybeAddFile(files, f, state.deleted, Merge(base[k..], added[1..]));
    }
    MergeNothing(base[k..]);
    while k < |base|
      invariant 0 <= k <= |base|
      invariant files + Undeleted(base[k..], state.deleted) == SavedAt(base, state)
    {
      assert base[k..] == [base[k]] + base[k + 1..];
      files := MaybeAddFile(files, base[k], state.deleted, base[k + 1..]);
      k := k + 1;
    }
    UndeletedEmpty(state.deleted);
    assert base[k..] == [] && files + [] == files;
  }

  lemma MergeNothing(base: seq<FileMeta>)
    ensures Merge(base, []) == base
  {}

  lemma UndeletedEmpty(deleted: set<nat>)
    ensures Undeleted([], deleted) == []
  {}

  lemma MergeBaseFirst(base: seq<FileMeta>, k: nat, added: seq<FileMeta>)
    requires k < |base| && added != [] && !BySmallest(added[0], base[k])
    ensures Merge(base[k..], added) == [base[k]] + Merge(base[k + 1..], added)
  {
    assert base[k..][0] == base[k] && base[k..][1..] == base[k + 1..];
  }

  lemma MergeAddedFirst(base: seq<FileMeta>, added: seq<FileMeta>)
    requires added != [] && (base != [] ==> BySmallest(added[0], base[0]))
    ensures Merge(base, added) == [added[0]] + Merge(base, added[1..])
  {
    if base == [] && added[1..] == [] {
      assert added == [added[0]];
    }
  }

  // ----- what an edit does to the files of a level -----

  lemma {:induction false} InsertMembers(fs: seq<FileMeta>, f: FileMeta)
    requires SortedFiles(fs)
    requires forall g :: g in fs ==> g.number != f.number
    ensures forall g :: g in Insert(fs, f) <==> g in fs || g == f
    ensures SortedFiles(Insert(fs, f))
  {
    if fs != [] {
      assert fs[0] in fs;
      assert forall i :: 0 <= i < |fs[1..]| ==> fs[1..][i] == fs[i + 1];
      InsertMembers(fs[1..], f);
      assert forall g :: g in fs <==> g == fs[0] || g in fs[1..];
      var r := Insert(fs[1..], f);
      if BySmallest(fs[0], f) && !BySmallest(f, fs[0]) {
        forall i | 0 <= i < |r| ensures BySmallest(fs[0], r[i]) { assert r[i] in r; }
      }
    }
  }

  lemma HeadIsLeast(fs: seq<FileMeta>)
    requires SortedFiles(fs) && fs != []
    ensures fs == [fs[0]] + fs[1..] && SortedFiles(fs[1..])
    ensures forall f :: f in fs[1..] ==> f in fs && BySmallest(fs[0], f)
    ensures fs[0] !in fs[1..]
  {}

  lemma PrependSorted(f: FileMeta, fs: seq<FileMeta>)
    requires SortedFiles(fs) && forall g :: g in fs ==> BySmallest(f, g)
    ensures SortedFiles([f] + fs)
  {}

  lemma {:induction false} MergeMembers(base: seq<FileMeta>, added: seq<FileMeta>)
    requires SortedFiles(base) && SortedFiles(added)
    requires forall f, g :: f in base && g in added ==> f.number != g.number
    ensures forall f :: f in Merge(base, added) <==> f in base || f in added
    ensures SortedFiles(Merge(base, added))
    decreases |base| + |added|
  {
    if added != [] && base != [] {
      HeadIsLeast(base);
      HeadIsLeast(added);
      var a, b := added[0], base[0];
      assert a.number != b.number;
      if BySmallest(a, b) {
        MergeMembers(base, added[1..]);
        forall g | g in Merge(base, added[1..]) ensures BySmallest(a, g) {
          if g in base { assert g == b || BySmallest(b, g); }
        }
        PrependSorted(a, Merge(base, added[1..]));
      } else {
        MergeMembers(base[1..], added);
        forall g | g in Merge(base[1..], added) ensures BySmallest(b, g) {
          if g in added { assert g == a || BySmallest(a, g); }
        }
        PrependSorted(b, Merge(base[1..], added));
      }
    }
  }

  lemma {:induction false} UndeletedMembers(fs: seq<FileMeta>, deleted: set<nat>)
    requires SortedFiles(fs)
    ensures forall f :: f in Undeleted(fs, deleted) <==> f in fs && f.number !in deleted
    ensures SortedFiles(Undeleted(fs, deleted))
  {
    if fs != [] {
      assert fs == [fs[0]] + fs[1..];
      UndeletedMembers(fs[1..], deleted);
      var r := Undeleted(fs[1..], deleted);
      forall i | 0 <= i < |r| ensures BySmallest(fs[0], r[i]) { assert r[i] in r; }
    }
  }

  lemma HasMember(fs: seq<FileMeta>)
    ensures fs == [] || exists f :: f in fs
  {
    if fs != [] { assert fs[0] in fs; }
  }

  /** Sorted runs with the same files are the same run. */
  lemma {:induction false} SortedFilesUnique(fs: seq<FileMeta>, gs: seq<FileMeta>)
    requires SortedFiles(fs) && SortedFiles(gs)
    requires forall f :: f in fs <==> f in gs
    ensures fs == gs
  {
    if fs == [] {
      HasMember(gs);
    } else {
      assert fs[0] in gs;
      assert gs[0] in fs;
      HeadIsLeast(fs);
      HeadIsLeast(gs);
      assert fs[0] == gs[0];
      SortedFilesUnique(fs[1..], gs[1..]);
    }
  }

  ghost predicate AddedAt(added: seq<(nat, FileMeta)>, level: nat, f: FileMeta) {
    (level, f) in added
  }

  /** The files added to `level` have numbers that differ from each other and from those of `existing`. */
  ghost predicate FreshNumbers(existing: seq<FileMeta>, added: seq<(nat, FileMeta)>, level: nat) {
    && (forall i, g :: 0 <= i < |added| && added[i].0 == level && g in existing ==> g.number != added[i].1.number)
    && (forall i, j :: 0 <= i < j < |added| && added[i].0 == level && added[j].0 == level ==>
       added[i].1.number != added[j].1.number)
  }

  lemma {:induction false} AddFilesMembers(state: LevelState, added: seq<(nat, FileMeta)>, level: nat)
    requires SortedFiles(state.added) && FreshNumbers(state.added, added, level)
    ensures var s := AddFiles(state, added, level);
            && SortedFiles(s.added)
            && (forall f :: f in s.added <==> f in state.added || AddedAt(added, level, f))
            && (forall n :: n in s.deleted <==> n in state.deleted && forall f :: AddedAt(added, level, f) ==>
               f.number != n)
  {
    if added != [] {
      var n := |added| - 1;
      assert added == added[..n] + [added[n]];
      AddFilesMembers(state, added[..n], level);
      var s := AddFiles(state, added[..n], level);
      var f := added[n].1;
      if added[n].0 == level {
        forall g | g in s.added ensures g.number != f.number {
          if g !in state.added {
            var i :| 0 <= i < n && added[..n][i] == (level, g);
          }
        }
        InsertMembers(s.added, f);
        assert AddedAt(added, level, f);
      }
      forall g ensures AddedAt(added, level, g) <==> AddedAt(added[..n], level, g) || (level, g) == added[n] {}
    }
  }

  /** What one edit does to the files of a level. */
  lemma EditedMembers(v: Version, edit: FileEdit, level: nat)
    requires |v| == NUM_LEVELS && level < NUM_LEVELS
    requires SortedFiles(v[level]) && FreshNumbers(v[level], edit.added, level)
    ensures SortedFiles(Edited(v, edit)[level])
    ensures forall f :: f in Edited(v, edit)[level] <==>
              AddedAt(edit.added, level, f) || (f in v[level] && (level, f.number) !in edit.deleted)
  {
    assert NOTHING[level] == EMPTY;
    SavedMembers(v[level], EMPTY, edit, level);
  }

  lemma SavedMembers(base: seq<FileMeta>, state: LevelState, edit: FileEdit, level: nat)
    requires SortedFiles(base) && SortedFiles(state.added)
    requires forall f, g :: f in base && g in state.added ==> f.number != g.number
    requires FreshNumbers(base, edit.added, level) && FreshNumbers(state.added, edit.added, level)
    ensures SortedFiles(ApplyAt(state, edit, level).added)
    ensures SortedFiles(SavedAt(base, ApplyAt(state, edit, level)))
    ensures forall f :: f in SavedAt(base, ApplyAt(state, edit, level)) <==>
              AddedAt(edit.added, level, f)
              || ((f in base || f in state.added) && f.number !in state.deleted && (level, f.number) !in edit.deleted)
  {
    var start := state.(deleted := state.deleted + DeletedAt(edit, level));
    AddFilesMembers(start, edit.added, level);
    var s := ApplyAt(state, edit, level);
    forall f, g | f in base && g in s.added ensures f.number != g.number {
      if g !in state.added { var i :| 0 <= i < |edit.added| && edit.added[i] == (level, g); }
    }
    MergeMembers(base, s.added);
    UndeletedMembers(Merge(base, s.added), s.deleted);
    forall f | f in base || f in state.added
      ensures forall g :: AddedAt(edit.added, level, g) ==> f.number != g.number {
      forall g | AddedAt(edit.added, level, g) ensures f.number != g.number {
        var i :| 0 <= i < |edit.added| && edit.added[i] == (level, g);
      }
    }
  }
}
