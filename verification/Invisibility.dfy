/** Dropping entries in a compaction is invisible to every snapshot that can still be read. */
module Invisibility {
  import opened InternalKeys
  import opened Versions
  import opened Merging

  ghost predicate Survives(input: seq<Entry>, i: nat, snapshot: nat, v: Version, level: nat)
    requires i < |input|
  {
    !Shadowed(input, i, snapshot) && !Obsolete(input[i], snapshot, v, level)
  }

  lemma {:induction false} KeptMembers(input: seq<Entry>, n: nat, snapshot: nat, v: Version, level: nat)
    requires n <= |input|
    ensures forall e :: e in Kept(input, n, snapshot, v, level) <==>
              exists i :: 0 <= i < n && input[i] == e && Survives(input, i, snapshot, v, level)
  {
    if n > 0 {
      KeptMembers(input, n - 1, snapshot, v, level);
      if Survives(input, n - 1, snapshot, v, level) {
        assert input[n-1] in Kept(input, n, snapshot, v, level);
      }
    }
  }

  lemma {:induction false} KeptSorted(input: seq<Entry>, n: nat, snapshot: nat, v: Version, level: nat)
    requires n <= |input| && Sorted(input)
    ensures Sorted(Kept(input, n, snapshot, v, level))
  {
    if n > 0 {
      KeptSorted(input, n - 1, snapshot, v, level);
      KeptMembers(input, n - 1, snapshot, v, level);
      var k := Kept(input, n - 1, snapshot, v, level);
      forall i | 0 <= i < |k| ensures Less(k[i].key, input[n-1].key) { assert k[i] in k; }
    }
  }

  lemma SameKeyRun(input: seq<Entry>, i: nat, j: nat)
    requires Sorted(input) && i < j < |input| && input[i].key.user == input[j].key.user
    ensures input[j-1].key.user == input[j].key.user
    ensures input[j-1].key.sequence <= input[i].key.sequence
    ensures input[j].key.sequence <= input[j-1].key.sequence
  {
    assert Less(input[j-1].key, input[j].key);
    if i < j - 1 { assert Less(input[i].key, input[j-1].key); }
  }

  /** Hidden from every read at `snapshot` or later by a newer version among `I`. */
  ghost predicate HiddenBy(I: set<Entry>, e: Entry, snapshot: nat) {
    exists x :: x in I && x.key.user == e.key.user && e.key.sequence < x.key.sequence <= snapshot
  }

  ghost predicate NothingOlder(E: set<Entry>, e: Entry) {
    forall x :: x in E && x.key.user == e.key.user ==> x.key.sequence >= e.key.sequence
  }

  /** Why each dropped entry could be dropped. */
  lemma DroppedEntries(input: seq<Entry>, snapshot: nat, v: Version, level: nat, e: Entry)
    requires Sorted(input) && UniqueVersions(Elements(input))
    requires e in input && e !in Kept(input, |input|, snapshot, v, level)
    ensures HiddenBy(Elements(input), e, snapshot)
         || (Obsolete(e, snapshot, v, level) && NothingOlder(Elements(Kept(input, |input|, snapshot, v, level)), e))
  {
    hide BaseLevel;
    KeptMembers(input, |input|, snapshot, v, level);
    var i :| 0 <= i < |input| && input[i] == e;
    assert !Survives(input, i, snapshot, v, level);
    if Shadowed(input, i, snapshot) {
      ShadowedIsHidden(input, i, snapshot);
    } else {
      forall x | x in Kept(input, |input|, snapshot, v, level) && x.key.user == e.key.user
        ensures x.key.sequence >= e.key.sequence {
        var j :| 0 <= j < |input| && input[j] == x && Survives(input, j, snapshot, v, level);
        ObsoleteIsOldest(input, i, j, snapshot, v, level);
      }
    }
  }

  lemma ShadowedIsHidden(input: seq<Entry>, i: nat, snapshot: nat)
    requires Sorted(input) && UniqueVersions(Elements(input)) && i < |input| && Shadowed(input, i, snapshot)
    ensures HiddenBy(Elements(input), input[i], snapshot)
  {
    SameKeyRun(input, i - 1, i);
    var x := input[i - 1];
    assert x in Elements(input) && input[i] in Elements(input) && Less(x.key, input[i].key);
  }

  /** After an obsolete deletion only newer versions of its key can survive. */
  lemma ObsoleteIsOldest(input: seq<Entry>, i: nat, j: nat, snapshot: nat, v: Version, level: nat)
    requires Sorted(input) && i < |input| && j < |input| && input[i].key.user == input[j].key.user
    requires input[i].key.sequence <= snapshot && Survives(input, j, snapshot, v, level)
    ensures input[i].key.sequence <= input[j].key.sequence
  {
    if i < j { SameKeyRun(input, i, j); } else if j < i { SameKeyRun(input, j, i); }
  }

  // ----- exactly what is dropped -----

  /** No file from two levels down on has the key in its range. */
  ghost predicate NothingDeeper(v: Version, level: nat, u: UserKey) {
    forall i, f :: level + 2 <= i < |v| && f in v[i] ==> u < f.smallest.user || u > f.largest.user
  }

  lemma BaseIsNothingDeeper(v: Version, level: nat, u: UserKey)
    ensures BaseLevel(v, level, u) <==> NothingDeeper(v, level, u)
  {
    if BaseLevel(v, level, u) {
      forall i, f | level + 2 <= i < |v| && f in v[i] ensures u < f.smallest.user || u > f.largest.user {
        assert !InUserRange(f, u);
      }
    }
  }

  lemma HiddenIsShadowed(input: seq<Entry>, i: nat, snapshot: nat)
    requires Sorted(input) && i < |input| && HiddenBy(Elements(input), input[i], snapshot)
    ensures Shadowed(input, i, snapshot)
  {
    var x :| x in Elements(input) && x.key.user == input[i].key.user
      && input[i].key.sequence < x.key.sequence <= snapshot;
    var j :| 0 <= j < |input| && input[j] == x;
    if i < j { SameKeyRun(input, i, j); }
    SameKeyRun(input, j, i);
  }

  /** `O` is what a merge should leave of `I`: the entries without a newer version of their key that
      every snapshot sees, but no deletion that every snapshot sees when nothing deeper has its key. */
  ghost predicate IsCompacted(I: set<Entry>, O: set<Entry>, snapshot: nat, v: Version, level: nat) {
    forall e :: e in O <==>
      && e in I
      && (forall x :: x in I && x.key.user == e.key.user && x.key.sequence > e.key.sequence ==>
         x.key.sequence > snapshot)
      && !(e.key.kind == TypeDeletion && e.key.sequence <= snapshot && NothingDeeper(v, level, e.key.user))
  }

  /** The merge loop keeps exactly that. */
  lemma MergeKeepsExactly(input: seq<Entry>, snapshot: nat, v: Version, level: nat)
    requires Sorted(input) && UniqueVersions(Elements(input))
    ensures IsCompacted(Elements(input), Elements(Kept(input, |input|, snapshot, v, level)), snapshot, v, level)
  {
    hide Kept, Sorted, UniqueVersions, Shadowed, NothingDeeper, BaseLevel;
    KeptMembers(input, |input|, snapshot, v, level);
    forall i | 0 <= i < |input|
      ensures Shadowed(input, i, snapshot) <==> HiddenBy(Elements(input), input[i], snapshot)
      ensures BaseLevel(v, level, input[i].key.user) <==> NothingDeeper(v, level, input[i].key.user)
    {
      if Shadowed(input, i, snapshot) { ShadowedIsHidden(input, i, snapshot); }
      if HiddenBy(Elements(input), input[i], snapshot) { HiddenIsShadowed(input, i, snapshot); }
      BaseIsNothingDeeper(v, level, input[i].key.user);
    }
  }

  /** Of the versions of a key that every snapshot sees at most one is left, and it is no deletion
      unless something deeper has the key. */
  lemma OneOldVersionLeft(I: set<Entry>, O: set<Entry>, snapshot: nat, v: Version, level: nat, a: Entry, b: Entry)
    requires UniqueVersions(I) && IsCompacted(I, O, snapshot, v, level) && a in O && b in O
    requires a.key.user == b.key.user && a.key.sequence <= snapshot && b.key.sequence <= snapshot
    ensures a == b && (NothingDeeper(v, level, a.key.user) ==> a.key.kind == TypeValue)
  {
    hide NothingDeeper;
  }

  /** When every snapshot sees everything and nothing lies deeper, the newest puts are left. */
  lemma OnlyNewestPutsLeft(I: set<Entry>, O: set<Entry>, snapshot: nat, v: Version, level: nat)
    requires IsCompacted(I, O, snapshot, v, level) && (forall x :: x in I ==> x.key.sequence <= snapshot)
    requires forall u :: NothingDeeper(v, level, u)
    ensures forall e :: e in O <==>
              && e in I && e.key.kind == TypeValue
              && forall x :: x in I && x.key.user == e.key.user ==> x.key.sequence <= e.key.sequence
  {
    hide NothingDeeper;
  }

  /** Among `I` and `R`, leaving out `e` while keeping `O` of `I` hides nothing from `snapshot` on. */
  ghost predicate Droppable(I: set<Entry>, O: set<Entry>, R: set<Entry>, snapshot: nat, e: Entry) {
    HiddenBy(I, e, snapshot) || (e.key.kind == TypeDeletion && e !in R && NothingOlder(O + R, e))
  }

  /** Replacing `I` by a part `O` of it beside unchanged entries `R` changes no read at
      `snapshot` or later, when what is missing is hidden or a deletion that hides nothing. */
  lemma DropIsInvisible(I: set<Entry>, O: set<Entry>, R: set<Entry>, snapshot: nat, u: UserKey, s: nat)
    requires UniqueVersions(I + R) && O <= I && snapshot <= s
    requires forall e :: e in I && e !in O ==> Droppable(I, O, R, snapshot, e)
    ensures Read(O + R, u, s) == Read(I + R, u, s)
  {
    if c :| c in I + R && Candidate(c, u, s) {
      var e := NewestExists(I + R, u, s, c);
      ReadNewest(I + R, u, s, e);
      if e in O + R {
        assert Newest(O + R, u, s, e);
        ReadNewest(O + R, u, s, e);
      } else {
        assert Droppable(I, O, R, snapshot, e) && !HiddenBy(I, e, snapshot);
        forall x | x in O + R ensures !Candidate(x, u, s) { assert x in I + R; }
        ReadNothing(O + R, u, s);
      }
    } else {
      ReadNothing(I + R, u, s);
      ReadNothing(O + R, u, s);
    }
  }

  // ----- the output files -----

  lemma {:induction false} FlattenMembers(files: seq<FileMeta>)
    ensures forall e :: e in Flatten(files) <==> e in Contents(files)
  {
    if files != [] {
      var n := |files| - 1;
      FlattenMembers(files[..n]);
      assert files == files[..n] + [files[n]];
      assert Contents(files) == Contents(files[..n]) + Elements(files[n].entries);
    }
  }

  lemma SortedParts(a: seq<Entry>, b: seq<Entry>)
    requires Sorted(a + b)
    ensures Sorted(a) && Sorted(b)
    ensures forall x, y :: x in a && y in b ==> Less(x.key, y.key)
  {
    forall i, j | 0 <= i < j < |a| ensures Less(a[i].key, a[j].key) { assert (a + b)[i] == a[i] && (a + b)[j] == a[j]; }
    forall i, j | 0 <= i < j < |b|
      ensures Less(b[i].key, b[j].key) { assert (a + b)[|a| + i] == b[i] && (a + b)[|a| + j] == b[j]; }
    forall x, y | x in a && y in b ensures Less(x.key, y.key) {
      var i :| 0 <= i < |a| && a[i] == x;
      var j :| 0 <= j < |b| && b[j] == y;
      assert (a + b)[i] == x && (a + b)[|a| + j] == y;
    }
  }

  /** Cutting a sorted run gives valid, sorted and disjoint files. */
  lemma {:induction false} CutFiles(files: seq<FileMeta>)
    requires Sorted(Flatten(files)) && forall e :: e in Flatten(files) ==> e.key.sequence <= MAX_SEQUENCE
    requires forall k :: 0 <= k < |files| ==> Labelled(files[k])
    ensures AllValid(files) && Ordered(files)
  {
    if files != [] {
      var n := |files| - 1;
      var rest, f := files[..n], files[n];
      var run := Flatten(rest);
      assert files == rest + [f];
      assert Flatten(files) == run + f.entries;
      SortedParts(run, f.entries);
      CutFiles(rest);
      FlattenMembers(rest);
      forall k | 0 <= k < n ensures Less(files[k].largest, f.smallest) {
        var last := files[k].entries[|files[k].entries|-1];
        assert rest[k] in rest && last in Contents(rest) && f.entries[0] in f.entries;
      }
    }
  }
}
