/** Installing a flushed table, a moved table and the output of a merge. */
module Installs {
  import opened InternalKeys
  import opened Versions
  import opened Inputs
  import opened Picking
  import opened Merging
  import opened Invisibility
  import opened Builders
  import opened Manifests

  ghost predicate Disjoint(f: FileMeta, g: FileMeta) {
    Less(f.largest, g.smallest) || Less(g.largest, f.smallest)
  }

  /** What a valid version says about file `f` of level `i` and file `g` of level `j`. */
  ghost predicate PairOk(i: nat, f: FileMeta, j: nat, g: FileMeta) {
    (i == j && f == g) ||
    (&& f.number != g.number
     && (i < j ==> Newer(f.entries, g.entries))
     && (i == j == 0 && f.number > g.number ==> Newer(f.entries, g.entries))
     && (i == j && i > 0 ==> Disjoint(f, g)))
  }

  lemma PairInVersion(v: Version, i: nat, f: FileMeta, j: nat, g: FileMeta)
    requires ValidVersion(v) && i < |v| && j < |v| && f in v[i] && g in v[j]
    ensures PairOk(i, f, j, g)
  {
    if i < j { assert Above(v[i], v[j]); }
    if i == j && i > 0 && f != g { TwoFiles(v[i], f, g); }
  }

  lemma PairsMakeVersion(v: Version)
    requires SortedVersion(v) && forall i :: 0 <= i < |v| ==> AllValid(v[i])
    requires forall i: nat, f, j: nat, g :: i < |v| && j < |v| && f in v[i] && g in v[j] ==> PairOk(i, f, j, g)
    ensures ValidVersion(v)
  {
    forall l | 1 <= l < |v| ensures Ordered(v[l]) {
      forall i, j | 0 <= i < j < |v[l]| ensures Less(v[l][i].largest, v[l][j].smallest) {
        assert PairOk(l, v[l][i], l, v[l][j]) && BySmallest(v[l][i], v[l][j]);
        FileSpan(v[l][i]);
        FileSpan(v[l][j]);
      }
    }
    forall i, j | 0 <= i < j < |v| ensures Above(v[i], v[j]) {
      forall f, g | f in v[i] && g in v[j] ensures Newer(f.entries, g.entries) { assert PairOk(i, f, j, g); }
    }
    forall f, g | f in v[0] && g in v[0] && f.number > g.number
      ensures Newer(f.entries, g.entries) { assert PairOk(0, f, 0, g); }
    forall i, f, g | 0 <= i < |v| && f in v[i] && g in v[i] && f.number == g.number
      ensures f == g { assert PairOk(i, f, i, g); }
    forall i, j, f, g | 0 <= i < j < |v| && f in v[i] && g in v[j]
      ensures f.number != g.number { assert PairOk(i, f, j, g); }
  }

  lemma NoSharedKeys(f: FileMeta, g: FileMeta)
    requires ValidFile(f) && ValidFile(g)
    requires f.largest.user < g.smallest.user || g.largest.user < f.smallest.user
    ensures Newer(f.entries, g.entries)
  {
    forall a, b | a in f.entries && b in g.entries ensures a.key.user != b.key.user {
      EntryInRange(f, a);
      EntryInRange(g, b);
    }
  }

  /** A file to the left has only newer versions of a key that both have. */
  lemma LeftIsNewer(f: FileMeta, g: FileMeta)
    requires ValidFile(f) && ValidFile(g) && Less(f.largest, g.smallest)
    requires UniqueVersions(Elements(f.entries) + Elements(g.entries))
    ensures Newer(f.entries, g.entries)
  {
    forall a, b | a in f.entries && b in g.entries && a.key.user == b.key.user ensures a.key.sequence > b.key.sequence {
      EntryInRange(f, a);
      EntryInRange(g, b);
      assert Less(a.key, b.key);
      assert a in Elements(f.entries) + Elements(g.entries) && b in Elements(f.entries) + Elements(g.entries);
    }
  }

  lemma UniqueInFiles(v: Version, i: nat, f: FileMeta, j: nat, g: FileMeta)
    requires UniqueVersions(EntriesOf(v)) && i < |v| && j < |v| && f in v[i] && g in v[j]
    ensures UniqueVersions(Elements(f.entries) + Elements(g.entries))
  {
    assert forall e :: e in f.entries ==> e in Contents(v[i]);
    assert forall e :: e in g.entries ==> e in Contents(v[j]);
  }

  // ----- flushing a memtable -----

  ghost predicate FreshNumber(v: Version, n: nat) {
    forall i, g :: 0 <= i < |v| && g in v[i] ==> g.number < n
  }

  ghost predicate NewerThanVersion(es: seq<Entry>, v: Version) {
    forall i, g :: 0 <= i < |v| && g in v[i] ==> Newer(es, g.entries)
  }

  /** Level `p` is one that `PickLevelForMemTableOutput` may choose for `f`. */
  ghost predicate Placeable(v: Version, f: FileMeta, p: nat) {
    && p <= MAX_MEM_COMPACT_LEVEL
    && (p > 0 ==> forall i :: 0 <= i <= p && i < |v| ==> Clear(v[i], UserRange(f.smallest, f.largest)))
  }

  function FlushEdit(f: FileMeta, p: nat): FileEdit {
    FileEdit({}, [(p, f)])
  }

  lemma FlushMembers(v: Version, f: FileMeta, p: nat)
    requires SortedVersion(v) && p < NUM_LEVELS && FreshNumber(v, f.number)
    ensures SortedVersion(Edited(v, FlushEdit(f, p)))
    ensures forall l, g :: 0 <= l < NUM_LEVELS ==>
              (g in Edited(v, FlushEdit(f, p))[l] <==> g in v[l] || (l == p && g == f))
  {
    var edit := FlushEdit(f, p);
    forall l | 0 <= l < NUM_LEVELS
      ensures SortedFiles(Edited(v, edit)[l])
      ensures forall g :: g in Edited(v, edit)[l] <==> g in v[l] || (l == p && g == f)
    {
      EditedMembers(v, edit, l);
      forall g ensures AddedAt(edit.added, l, g) <==> l == p && g == f {
        if l == p && g == f { assert edit.added[0] == (l, g); }
      }
    }
  }

  lemma FlushKeepsVersion(v: Version, f: FileMeta, p: nat)
    requires ValidVersion(v) && SortedVersion(v) && ValidFile(f)
    requires FreshNumber(v, f.number) && NewerThanVersion(f.entries, v) && Placeable(v, f, p)
    ensures ValidVersion(Edited(v, FlushEdit(f, p))) && SortedVersion(Edited(v, FlushEdit(f, p)))
  {
    var w: Version := Edited(v, FlushEdit(f, p));
    FlushMembers(v, f, p);
    forall i: nat, a, j: nat, b | i < |w| && j < |w| && a in w[i] && b in w[j] ensures PairOk(i, a, j, b) {
      if a in v[i] && b in v[j] {
        PairInVersion(v, i, a, j, b);
      } else if a in v[i] {
        FlushedPair(v, f, p, i, a);
      } else if b in v[j] {
        FlushedPair(v, f, p, j, b);
      }
    }
    PairsMakeVersion(w);
  }

  lemma FlushedPair(v: Version, f: FileMeta, p: nat, i: nat, a: FileMeta)
    requires ValidVersion(v) && ValidFile(f) && i < |v| && a in v[i]
    requires FreshNumber(v, f.number) && NewerThanVersion(f.entries, v) && Placeable(v, f, p)
    ensures PairOk(i, a, p, f) && PairOk(p, f, i, a)
  {
    if p > 0 && i <= p {
      assert Clear(v[i], UserRange(f.smallest, f.largest));
      NoSharedKeys(a, f);
    }
  }

  // ----- moving one file down -----

  function MoveEdit(f: FileMeta, level: nat): FileEdit {
    FileEdit({(level, f.number)}, [(level + 1, f)])
  }

  lemma MoveMembers(v: Version, f: FileMeta, level: nat)
    requires ValidVersion(v) && SortedVersion(v) && level + 1 < NUM_LEVELS && f in v[level]
    ensures SortedVersion(Edited(v, MoveEdit(f, level)))
    ensures forall l, g :: 0 <= l < NUM_LEVELS ==>
              (g in Edited(v, MoveEdit(f, level))[l] <==>
                (g in v[l] && !(l == level && g == f)) || (l == level + 1 && g == f))
  {
    hide Newer, Ordered, ValidFile, NewestByNumber, Above;
    var edit := MoveEdit(f, level);
    forall l | 0 <= l < NUM_LEVELS
      ensures SortedFiles(Edited(v, edit)[l])
      ensures forall g :: g in Edited(v, edit)[l] <==>
              (g in v[l] && !(l == level && g == f)) || (l == level + 1 && g == f)
    {
      forall i, g | 0 <= i < |edit.added| && edit.added[i].0 == l && g in v[l] ensures g.number != f.number {
        PairInVersion(v, level, f, l, g);
      }
      EditedMembers(v, edit, l);
      forall g ensures AddedAt(edit.added, l, g) <==> l == level + 1 && g == f {
        if l == level + 1 && g == f { assert edit.added[0] == (l, g); }
      }
      forall g | g in v[l] ensures (l, g.number) in edit.deleted <==> l == level && g == f {
        PairInVersion(v, level, f, l, g);
      }
    }
  }

  lemma MoveKeepsVersion(v: Version, f: FileMeta, level: nat)
    requires ValidVersion(v) && SortedVersion(v) && UniqueVersions(EntriesOf(v))
    requires Legal(v, level, [f], [])
    ensures ValidVersion(Edited(v, MoveEdit(f, level))) && SortedVersion(Edited(v, MoveEdit(f, level)))
    ensures EntriesOf(Edited(v, MoveEdit(f, level))) == EntriesOf(v)
  {
    var w: Version := Edited(v, MoveEdit(f, level));
    assert f in [f];
    MoveMembers(v, f, level);
    forall i: nat, a, j: nat, b | i < |w| && j < |w| && a in w[i] && b in w[j] ensures PairOk(i, a, j, b) {
      if i == level + 1 && a == f {
        if !(j == level + 1 && b == f) { MovedPair(v, f, level, j, b); }
      } else if j == level + 1 && b == f {
        MovedPair(v, f, level, i, a);
      } else {
        PairInVersion(v, i, a, j, b);
      }
    }
    PairsMakeVersion(w);
    MoveEntries(v, w, f, level);
  }

  lemma MoveEntries(v: Version, w: Version, f: FileMeta, level: nat)
    requires |v| == |w| && level + 1 < |v| && f in v[level]
    requires forall l, g :: 0 <= l < |v| ==>
             (g in w[l] <==> (g in v[l] && !(l == level && g == f)) || (l == level + 1 && g == f))
    ensures EntriesOf(w) == EntriesOf(v)
  {
    forall e | e in EntriesOf(v) ensures e in EntriesOf(w) {
      var i :| 0 <= i < |v| && e in Contents(v[i]);
      var g :| g in v[i] && e in g.entries;
      var k := if i == level && g == f then level + 1 else i;
      assert g in w[k] && e in Contents(w[k]);
    }
    forall e | e in EntriesOf(w) ensures e in EntriesOf(v) {
      var i :| 0 <= i < |w| && e in Contents(w[i]);
      var g :| g in w[i] && e in g.entries;
      var k := if i == level + 1 && g == f then level else i;
      assert g in v[k] && e in Contents(v[k]);
    }
  }

  /** A file that stays on the level of a legally moved file. */
  lemma StayingFile(v: Version, f: FileMeta, level: nat, a: FileMeta)
    requires Legal(v, level, [f], []) && a in v[level] && a != f
    ensures Less(a.largest, f.smallest) || f.largest.user < a.smallest.user
  {
    assert f in [f] && a !in [f];
  }

  /** A file of the level a file is legally moved to. */
  lemma TargetFile(v: Version, f: FileMeta, level: nat, a: FileMeta)
    requires Legal(v, level, [f], []) && a in v[level + 1]
    ensures Disjoint(a, f)
  {
    assert f in [f] + [] && a !in [];
  }

  lemma MovedPair(v: Version, f: FileMeta, level: nat, i: nat, a: FileMeta)
    requires ValidVersion(v) && UniqueVersions(EntriesOf(v))
    requires Legal(v, level, [f], []) && f in v[level] && i < |v| && a in v[i] && !(i == level && a == f)
    ensures PairOk(i, a, level + 1, f) && PairOk(level + 1, f, i, a)
  {
    PairInVersion(v, level, f, i, a);
    PairInVersion(v, i, a, level, f);
    if i == level {
      StayingFile(v, f, level, a);
      UniqueInFiles(v, i, a, level, f);
      if Less(a.largest, f.smallest) { LeftIsNewer(a, f); } else { NoSharedKeys(a, f); }
    } else if i == level + 1 {
      TargetFile(v, f, level, a);
    }
  }

  // ----- installing the output of a merge -----

  /** Among the files that stay in `v`, those on the two levels of the merge have only newer
      versions of the keys of the inputs that they are searched before. */
  ghost predicate Mergeable(v: Version, level: nat, in0: seq<FileMeta>, in1: seq<FileMeta>) {
    && level + 1 < NUM_LEVELS == |v|
    && Subset(in0, v[level]) && Subset(in1, v[level + 1])
    && (forall g, f :: g in v[level] && g !in in0 && f in in0 ==> Newer(g.entries, f.entries))
    && (forall g, f :: g in v[level + 1] && g !in in1 && f in in0 + in1 ==> Newer(g.entries, f.entries))
  }

  lemma LegalIsMergeable(v: Version, level: nat, in0: seq<FileMeta>, in1: seq<FileMeta>)
    requires ValidVersion(v) && UniqueVersions(EntriesOf(v)) && Legal(v, level, in0, in1)
    ensures Mergeable(v, level, in0, in1)
  {
    hide ValidFile, Ordered, DistinctNumbers, NewestByNumber, Above, Newer, UniqueVersions;
    forall g, f | g in v[level] && g !in in0 && f in in0 ensures Newer(g.entries, f.entries) {
      assert AllValid(v[level]);
      StaysOnUpper(v[level], level, in0, g, f);
      SideIsNewer(v, level, g, level, f);
    }
    forall g, f | g in v[level + 1] && g !in in1 && f in in0 + in1 ensures Newer(g.entries, f.entries) {
      StaysOnLower(v[level + 1], in0, in1, g, f);
      SideIsNewer(v, level + 1, g, if f in in0 then level else level + 1, f);
    }
  }

  lemma StaysOnUpper(files: seq<FileMeta>, level: nat, in0: seq<FileMeta>, g: FileMeta, f: FileMeta)
    requires LegalUpper(files, level, in0) && AllValid(files) && g in files && g !in in0 && f in in0
    ensures Less(g.largest, f.smallest) || f.largest.user < g.smallest.user
  {
    FileSpan(g);
  }

  lemma StaysOnLower(files: seq<FileMeta>, in0: seq<FileMeta>, in1: seq<FileMeta>, g: FileMeta, f: FileMeta)
    requires LegalLower(files, in0, in1) && g in files && g !in in1 && f in in0 + in1
    ensures Less(g.largest, f.smallest) || f.largest.user < g.smallest.user
  {}

  lemma SideIsNewer(v: Version, i: nat, g: FileMeta, j: nat, f: FileMeta)
    requires WellFormed(v) && UniqueVersions(EntriesOf(v)) && i < |v| && j < |v| && g in v[i] && f in v[j]
    requires Less(g.largest, f.smallest) || f.largest.user < g.smallest.user
    ensures Newer(g.entries, f.entries)
  {
    assert ValidFile(g) && ValidFile(f);
    UniqueInFiles(v, i, g, j, f);
    if Less(g.largest, f.smallest) { LeftIsNewer(g, f); } else { NoSharedKeys(g, f); }
  }

  /** Every file that stays on the output level lies beside every output file. */
  ghost predicate Fits(v: Version, level: nat, in1: seq<FileMeta>, outs: seq<FileMeta>)
    requires level + 1 < |v|
  {
    forall g, o :: g in v[level + 1] && g !in in1 && o in outs ==> Disjoint(g, o)
  }

  /** The output files: cut from entries of the inputs, under numbers that nothing else has. */
  ghost predicate OutputFiles(v: Version, inputs: seq<FileMeta>, outs: seq<FileMeta>) {
    && AllValid(outs) && Ordered(outs) && Contents(outs) <= Contents(inputs)
    && NewNumbers(v, outs)
  }

  ghost predicate NewNumbers(v: Version, outs: seq<FileMeta>) {
    && (forall i, j :: 0 <= i < j < |outs| ==> outs[i].number != outs[j].number)
    && (forall i, o, g :: 0 <= i < |v| && o in outs && g in v[i] ==> o.number != g.number)
  }

  function NumbersAt(level: nat, fs: seq<FileMeta>): set<(nat, nat)> {
    set f | f in fs :: (level, f.number)
  }

  function InstallEdit(level: nat, in0: seq<FileMeta>, in1: seq<FileMeta>, outs: seq<FileMeta>): FileEdit {
    FileEdit(NumbersAt(level, in0) + NumbersAt(level + 1, in1), At(level + 1, outs))
  }

  /** The inputs of both levels are removed and the outputs added to the lower level. */
  method InstallCompactionResults(level: nat, in0: seq<FileMeta>, in1: seq<FileMeta>, outs: seq<FileMeta>)
      returns (edit: FileEdit)
    ensures edit == InstallEdit(level, in0, in1, outs)
  {
    var deleted := {};
    for i := 0 to |in0|
      invariant deleted == NumbersAt(level, in0[..i])
    {
      assert in0[..i + 1] == in0[..i] + [in0[i]];
      deleted := deleted + {(level, in0[i].number)};
    }
    assert in0[..|in0|] == in0;
    for i := 0 to |in1|
      invariant deleted == NumbersAt(level, in0) + NumbersAt(level + 1, in1[..i])
    {
      assert in1[..i + 1] == in1[..i] + [in1[i]];
      deleted := deleted + {(level + 1, in1[i].number)};
    }
    assert in1[..|in1|] == in1;
    var added: seq<(nat, FileMeta)> := [];
    for i := 0 to |outs|
      invariant added == At(level + 1, outs[..i])
    {
      assert outs[..i + 1][..i] == outs[..i];
      added := added + [(level + 1, outs[i])];
    }
    assert outs[..|outs|] == outs;
    edit := FileEdit(deleted, added);
  }

  /** File `g` of level `l` is an input. */
  ghost predicate IsInput(l: nat, g: FileMeta, level: nat, in0: seq<FileMeta>, in1: seq<FileMeta>) {
    (l == level && g in in0) || (l == level + 1 && g in in1)
  }

  /** File `a` of level `i` after the installation. */
  ghost predicate AfterInstall(v: Version, level: nat, in0: seq<FileMeta>, in1: seq<FileMeta>, outs: seq<FileMeta>,
                               i: nat, a: FileMeta) {
    i < |v| && ((a in v[i] && !IsInput(i, a, level, in0, in1)) || (i == level + 1 && a in outs))
  }

  lemma InstallMembers(v: Version, level: nat, in0: seq<FileMeta>, in1: seq<FileMeta>, outs: seq<FileMeta>)
    requires ValidVersion(v) && SortedVersion(v) && Mergeable(v, level, in0, in1) && OutputFiles(v, in0 + in1, outs)
    ensures SortedVersion(Edited(v, InstallEdit(level, in0, in1, outs)))
    ensures forall l: nat, g :: l < NUM_LEVELS ==>
              (g in Edited(v, InstallEdit(level, in0, in1, outs))[l] <==> AfterInstall(v, level, in0, in1, outs, l, g))
  {
    forall l: nat | l < NUM_LEVELS
      ensures SortedFiles(Edited(v, InstallEdit(level, in0, in1, outs))[l])
      ensures forall g :: g in Edited(v, InstallEdit(level, in0, in1, outs))[l] <==>
              AfterInstall(v, level, in0, in1, outs, l, g)
    {
      InstallMembersAt(v, level, in0, in1, outs, l);
    }
  }

  lemma InstallMembersAt(v: Version, level: nat, in0: seq<FileMeta>, in1: seq<FileMeta>, outs: seq<FileMeta>, l: nat)
    requires DistinctNumbers(v) && SortedVersion(v) && l < NUM_LEVELS
    requires level + 1 < |v| && Subset(in0, v[level]) && Subset(in1, v[level + 1]) && NewNumbers(v, outs)
    ensures SortedFiles(Edited(v, InstallEdit(level, in0, in1, outs))[l])
    ensures forall g :: g in Edited(v, InstallEdit(level, in0, in1, outs))[l] <==>
            AfterInstall(v, level, in0, in1, outs, l, g)
  {
    var edit := InstallEdit(level, in0, in1, outs);
    OutputsAdded(v, level + 1, outs, l);
    EditedMembers(v, edit, l);
    forall g | g in v[l] ensures (l, g.number) in edit.deleted <==> IsInput(l, g, level, in0, in1) {
      InputNumbers(v, level, in0, in1, l, g);
    }
  }

  lemma OutputsAdded(v: Version, level: nat, outs: seq<FileMeta>, l: nat)
    requires NewNumbers(v, outs) && l < |v|
    ensures FreshNumbers(v[l], At(level, outs), l)
    ensures forall g :: AddedAt(At(level, outs), l, g) <==> l == level && g in outs
  {
    AtMembers(level, outs);
    forall i, g | 0 <= i < |outs| && g in v[l] ensures g.number != outs[i].number {
      assert outs[i] in outs;
    }
    forall g | l == level && g in outs ensures AddedAt(At(level, outs), l, g) {
      var i :| 0 <= i < |outs| && outs[i] == g;
      assert At(level, outs)[i] == (l, g);
    }
  }

  lemma InputNumbers(v: Version, level: nat, in0: seq<FileMeta>, in1: seq<FileMeta>, l: nat, g: FileMeta)
    requires DistinctNumbers(v) && level + 1 < |v| && Subset(in0, v[level]) && Subset(in1, v[level + 1])
    requires l < |v| && g in v[l]
    ensures (l, g.number) in NumbersAt(level, in0) + NumbersAt(level + 1, in1) <==> IsInput(l, g, level, in0, in1)
  {
  }

  /** `g` stays while the inputs are replaced by `o`, one of the outputs. */
  lemma OutputPair(v: Version, level: nat, in0: seq<FileMeta>, in1: seq<FileMeta>, outs: seq<FileMeta>, o: FileMeta,
                   i: nat, g: FileMeta)
    requires ValidVersion(v) && Mergeable(v, level, in0, in1) && OutputFiles(v, in0 + in1, outs) && o in outs
    requires Fits(v, level, in1, outs)
    requires i < |v| && g in v[i] && !IsInput(i, g, level, in0, in1)
    ensures PairOk(i, g, level + 1, o) && PairOk(level + 1, o, i, g)
  {
    hide Ordered, ValidFile, NewestByNumber;
    if i != level + 1 {
      forall a, b | a in g.entries && b in o.entries && a.key.user == b.key.user
        ensures if i <= level then a.key.sequence > b.key.sequence else a.key.sequence < b.key.sequence
      {
        assert b in Contents(outs);
        var f :| f in in0 + in1 && b in f.entries;
        var k := if f in in0 then level else level + 1;
        assert f in v[k];
        if i == level && k == level {
          assert Newer(g.entries, f.entries);
        } else if i < k {
          assert Above(v[i], v[k]);
          NewerEntry(g.entries, f.entries, a, b);
        } else {
          assert Above(v[k], v[i]);
          NewerEntry(f.entries, g.entries, b, a);
        }
      }
    }
  }

  lemma InstalledPair(v: Version, level: nat, in0: seq<FileMeta>, in1: seq<FileMeta>, outs: seq<FileMeta>, i: nat,
                      a: FileMeta, j: nat, b: FileMeta)
    requires ValidVersion(v) && Mergeable(v, level, in0, in1) && OutputFiles(v, in0 + in1, outs)
    requires AfterInstall(v, level, in0, in1, outs, i, a) && AfterInstall(v, level, in0, in1, outs, j, b)
    requires Fits(v, level, in1, outs)
    ensures PairOk(i, a, j, b)
  {
    if i == level + 1 && a in outs {
      if j == level + 1 && b in outs {
        if a != b { TwoFiles(outs, a, b); }
      } else {
        OutputPair(v, level, in0, in1, outs, a, j, b);
      }
    } else if j == level + 1 && b in outs {
      OutputPair(v, level, in0, in1, outs, b, i, a);
    } else {
      PairInVersion(v, i, a, j, b);
    }
  }

  lemma InstallKeepsVersion(v: Version, level: nat, in0: seq<FileMeta>, in1: seq<FileMeta>, outs: seq<FileMeta>)
    requires ValidVersion(v) && SortedVersion(v) && Mergeable(v, level, in0, in1) && OutputFiles(v, in0 + in1, outs)
    requires Fits(v, level, in1, outs)
    ensures ValidVersion(Edited(v, InstallEdit(level, in0, in1, outs)))
    ensures SortedVersion(Edited(v, InstallEdit(level, in0, in1, outs)))
  {
    var w: Version := Edited(v, InstallEdit(level, in0, in1, outs));
    InstallMembers(v, level, in0, in1, outs);
    InstalledVersion(v, w, level, in0, in1, outs);
  }

  lemma InstalledVersion(v: Version, w: Version, level: nat, in0: seq<FileMeta>, in1: seq<FileMeta>,
                         outs: seq<FileMeta>)
    requires ValidVersion(v) && Mergeable(v, level, in0, in1) && OutputFiles(v, in0 + in1, outs) && SortedVersion(w)
    requires forall l: nat, g :: l < |w| && g in w[l] ==> AfterInstall(v, level, in0, in1, outs, l, g)
    requires Fits(v, level, in1, outs)
    ensures ValidVersion(w)
  {
    forall i: nat, a, j: nat, b | i < |w| && j < |w| && a in w[i] && b in w[j] ensures PairOk(i, a, j, b) {
      InstalledPair(v, level, in0, in1, outs, i, a, j, b);
    }
    InstalledFilesValid(v, w, level, in0, in1, outs);
    PairsMakeVersion(w);
  }

  lemma InstalledFilesValid(v: Version, w: Version, level: nat, in0: seq<FileMeta>, in1: seq<FileMeta>,
                            outs: seq<FileMeta>)
    requires WellFormed(v) && |w| == |v| && AllValid(outs)
    requires forall l: nat, g :: l < |w| && g in w[l] ==> AfterInstall(v, level, in0, in1, outs, l, g)
    ensures forall i :: 0 <= i < |w| ==> AllValid(w[i])
  {
    forall i, g | 0 <= i < |w| && g in w[i] ensures ValidFile(g) {
      assert AfterInstall(v, level, in0, in1, outs, i, g);
      assert g in v[i] || g in outs;
    }
  }

  // ----- reads across an installation -----

  /** The entries of the files that are not inputs. */
  ghost function Others(v: Version, level: nat, in0: seq<FileMeta>, in1: seq<FileMeta>): set<Entry> {
    set i, g, e | 0 <= i < |v| && g in v[i] && !IsInput(i, g, level, in0, in1) && e in g.entries :: e
  }

  lemma SplitEntries(v: Version, w: Version, level: nat, in0: seq<FileMeta>, in1: seq<FileMeta>, outs: seq<FileMeta>)
    requires |w| == |v| && level + 1 < |v| && Subset(in0, v[level]) && Subset(in1, v[level + 1])
    requires forall l: nat, g :: l < |w| ==> (g in w[l] <==> AfterInstall(v, level, in0, in1, outs, l, g))
    ensures EntriesOf(v) == Contents(in0 + in1) + Others(v, level, in0, in1)
    ensures EntriesOf(w) == Contents(outs) + Others(v, level, in0, in1)
  {
    forall e | e in EntriesOf(v) ensures e in Contents(in0 + in1) + Others(v, level, in0, in1) {
      var i :| 0 <= i < |v| && e in Contents(v[i]);
      var g :| g in v[i] && e in g.entries;
      if IsInput(i, g, level, in0, in1) { assert g in in0 + in1; }
    }
    forall e | e in EntriesOf(w) ensures e in Contents(outs) + Others(v, level, in0, in1) {
      var i :| 0 <= i < |w| && e in Contents(w[i]);
      var g :| g in w[i] && e in g.entries;
      assert AfterInstall(v, level, in0, in1, outs, i, g);
    }
    forall e | e in Contents(in0 + in1) ensures e in EntriesOf(v) {
      var g :| g in in0 + in1 && e in g.entries;
      var k := if g in in0 then level else level + 1;
      assert g in v[k] && e in Contents(v[k]);
    }
    forall e | e in Contents(outs) ensures e in EntriesOf(w) {
      var g :| g in outs && e in g.entries;
      assert AfterInstall(v, level, in0, in1, outs, level + 1, g);
      assert e in Contents(w[level + 1]);
    }
    forall e | e in Others(v, level, in0, in1) ensures e in EntriesOf(v) && e in EntriesOf(w) {
      var i, g :| 0 <= i < |v| && g in v[i] && !IsInput(i, g, level, in0, in1) && e in g.entries;
      assert AfterInstall(v, level, in0, in1, outs, i, g);
      assert e in Contents(v[i]) && e in Contents(w[i]);
    }
  }

  /** A file that stays has no older version of a key for which the output level is the base level. */
  lemma OtherIsNewer(v: Version, level: nat, in0: seq<FileMeta>, in1: seq<FileMeta>, f: FileMeta, e: Entry, i: nat,
                     g: FileMeta, r: Entry)
    requires ValidVersion(v) && UniqueVersions(EntriesOf(v)) && Mergeable(v, level, in0, in1)
    requires f in in0 + in1 && e in f.entries && BaseLevel(v, level, e.key.user)
    requires i < |v| && g in v[i] && !IsInput(i, g, level, in0, in1) && r in g.entries && r.key.user == e.key.user
    ensures r.key.sequence > e.key.sequence
  {
    hide Newer, Ordered, DistinctNumbers, NewestByNumber, UniqueVersions;
    var k := if f in in0 then level else level + 1;
    EntryInRange(g, r);
    assert i < level + 2;
    if i < k {
      assert Above(v[i], v[k]);
    } else {
      assert Newer(g.entries, f.entries);
    }
    NewerEntry(g.entries, f.entries, r, e);
  }

  /** Every version of a key in `X` is newer than every version of it in `E`. */
  ghost predicate SetNewer(X: set<Entry>, E: set<Entry>) {
    forall x, e :: x in X && e in E && x.key.user == e.key.user ==> x.key.sequence > e.key.sequence
  }

  /** `outs` is what the merge loop leaves of the entries of the inputs. */
  ghost predicate Merged(inputs: seq<FileMeta>, input: seq<Entry>, outs: seq<FileMeta>, snapshot: nat,
                         inputVersion: Version, level: nat) {
    && Sorted(input) && Elements(input) == Contents(inputs)
    && Flatten(outs) == Kept(input, |input|, snapshot, inputVersion, level)
    && forall k :: 0 <= k < |outs| ==> Labelled(outs[k])
  }

  /** The outputs have what a merge should leave. */
  lemma MergedIsCompacted(inputs: seq<FileMeta>, input: seq<Entry>, outs: seq<FileMeta>, snapshot: nat,
                          inputVersion: Version, level: nat)
    requires Merged(inputs, input, outs, snapshot, inputVersion, level) && UniqueVersions(Contents(inputs))
    ensures IsCompacted(Contents(inputs), Contents(outs), snapshot, inputVersion, level)
  {
    hide IsCompacted, UniqueVersions, Kept;
    MergeKeepsExactly(input, snapshot, inputVersion, level);
    FlattenMembers(outs);
    assert Contents(outs) == Elements(Kept(input, |input|, snapshot, inputVersion, level));
  }

  /** What was the base level for a key of the inputs when the merge began still is. */
  ghost predicate BaseStays(inputVersion: Version, v: Version, level: nat, inputs: seq<FileMeta>) {
    forall f, u :: f in inputs && InUserRange(f, u) && BaseLevel(inputVersion, level, u) ==> BaseLevel(v, level, u)
  }

  lemma MergedFiles(inputs: seq<FileMeta>, input: seq<Entry>, outs: seq<FileMeta>, snapshot: nat, inputVersion: Version,
                    level: nat)
    requires AllValid(inputs) && Merged(inputs, input, outs, snapshot, inputVersion, level)
    ensures AllValid(outs) && Ordered(outs) && Contents(outs) <= Contents(inputs)
    ensures Contents(outs) == Elements(Kept(input, |input|, snapshot, inputVersion, level))
  {
    KeptMembers(input, |input|, snapshot, inputVersion, level);
    KeptSorted(input, |input|, snapshot, inputVersion, level);
    FlattenMembers(outs);
    forall e | e in Flatten(outs) ensures e.key.sequence <= MAX_SEQUENCE {
      assert e in Elements(input);
      var f :| f in inputs && e in f.entries;
    }
    CutFiles(outs);
  }

  /** Entries dropped by a merge are invisible to reads at its snapshot or later, with any
      newer entries `X` around. */
  lemma InstallIsInvisible(v: Version, w: Version, level: nat, in0: seq<FileMeta>, in1: seq<FileMeta>,
                           input: seq<Entry>, outs: seq<FileMeta>,
                           snapshot: nat, inputVersion: Version, X: set<Entry>, u: UserKey, s: nat)
    requires ValidVersion(v) && Mergeable(v, level, in0, in1)
    requires UniqueVersions(X + EntriesOf(v)) && SetNewer(X, EntriesOf(v))
    requires |w| == |v| && forall l: nat, g :: l < |w| ==> (g in w[l] <==> AfterInstall(v, level, in0, in1, outs, l, g))
    requires Merged(in0 + in1, input, outs, snapshot, inputVersion, level)
    requires BaseStays(inputVersion, v, level, in0 + in1)
    requires snapshot <= s
    ensures Read(X + EntriesOf(w), u, s) == Read(X + EntriesOf(v), u, s)
  {
    var I, O, others := Contents(in0 + in1), Contents(outs), Others(v, level, in0, in1);
    assert EntriesOf(v) == I + others && EntriesOf(w) == O + others by { SplitEntries(v, w, level, in0, in1, outs); }
    assert O <= I && O == Elements(Kept(input, |input|, snapshot, inputVersion, level)) by {
      InputsValid(v, level, in0, in1);
      MergedFiles(in0 + in1, input, outs, snapshot, inputVersion, level);
    }
    AllDroppedAreHidden(v, level, in0, in1, input, outs, snapshot, inputVersion, X);
    SwapIsInvisible(I, O, others, X, snapshot, u, s);
  }

  lemma AllDroppedAreHidden(v: Version, level: nat, in0: seq<FileMeta>, in1: seq<FileMeta>, input: seq<Entry>,
                            outs: seq<FileMeta>,
                            snapshot: nat, inputVersion: Version, X: set<Entry>)
    requires ValidVersion(v) && Mergeable(v, level, in0, in1)
    requires UniqueVersions(X + EntriesOf(v)) && SetNewer(X, EntriesOf(v)) && Contents(in0 + in1) <= EntriesOf(v)
    requires Sorted(input) && Elements(input) == Contents(in0 + in1)
    requires Contents(outs) == Elements(Kept(input, |input|, snapshot, inputVersion, level))
    requires BaseStays(inputVersion, v, level, in0 + in1)
    ensures forall e :: e in Contents(in0 + in1) && e !in Contents(outs) ==>
              Droppable(Contents(in0 + in1), Contents(outs), X + Others(v, level, in0, in1), snapshot, e)
  {
    UniqueSubset(X + EntriesOf(v), EntriesOf(v));
    UniqueSubset(X + EntriesOf(v), Contents(in0 + in1));
    forall e | e in Contents(in0 + in1) && e !in Contents(outs)
      ensures Droppable(Contents(in0 + in1), Contents(outs), X + Others(v, level, in0, in1), snapshot, e)
    {
      DroppedIsHidden(v, level, in0, in1, input, outs, snapshot, inputVersion, X, e);
    }
  }

  lemma SwapIsInvisible(I: set<Entry>, O: set<Entry>, others: set<Entry>, X: set<Entry>, snapshot: nat, u: UserKey,
                        s: nat)
    requires UniqueVersions(X + (I + others)) && O <= I && snapshot <= s
    requires forall e :: e in I && e !in O ==> Droppable(I, O, X + others, snapshot, e)
    ensures Read(X + (O + others), u, s) == Read(X + (I + others), u, s)
  {
    assert X + (O + others) == O + (X + others) && X + (I + others) == I + (X + others);
    DropIsInvisible(I, O, X + others, snapshot, u, s);
  }

  lemma UniqueSubset(E: set<Entry>, F: set<Entry>)
    requires UniqueVersions(E) && F <= E
    ensures UniqueVersions(F)
  {}

  lemma InputsValid(v: Version, level: nat, in0: seq<FileMeta>, in1: seq<FileMeta>)
    requires WellFormed(v) && level + 1 < |v| && Subset(in0, v[level]) && Subset(in1, v[level + 1])
    ensures AllValid(in0 + in1)
  {
    forall f | f in in0 + in1 ensures ValidFile(f) { assert f in v[level] || f in v[level + 1]; }
  }

  lemma DroppedIsHidden(v: Version, level: nat, in0: seq<FileMeta>, in1: seq<FileMeta>, input: seq<Entry>,
                        outs: seq<FileMeta>,
                        snapshot: nat, inputVersion: Version, X: set<Entry>, e: Entry)
    requires ValidVersion(v) && Mergeable(v, level, in0, in1)
    requires UniqueVersions(EntriesOf(v)) && UniqueVersions(Contents(in0 + in1)) && SetNewer(X, EntriesOf(v))
    requires Sorted(input) && Elements(input) == Contents(in0 + in1)
    requires Contents(outs) == Elements(Kept(input, |input|, snapshot, inputVersion, level))
    requires BaseStays(inputVersion, v, level, in0 + in1)
    requires e in Contents(in0 + in1) && e !in Contents(outs) && e in EntriesOf(v)
    ensures Droppable(Contents(in0 + in1), Contents(outs), X + Others(v, level, in0, in1), snapshot, e)
  {
    DroppedEntries(input, snapshot, inputVersion, level, e);
    if !HiddenBy(Contents(in0 + in1), e, snapshot) {
      OldestRemains(v, level, in0, in1, inputVersion, X, e);
    }
  }

  lemma OldestRemains(v: Version, level: nat, in0: seq<FileMeta>, in1: seq<FileMeta>, inputVersion: Version,
                      X: set<Entry>, e: Entry)
    requires ValidVersion(v) && Mergeable(v, level, in0, in1)
    requires UniqueVersions(EntriesOf(v)) && SetNewer(X, EntriesOf(v))
    requires BaseStays(inputVersion, v, level, in0 + in1) && BaseLevel(inputVersion, level, e.key.user)
    requires e in Contents(in0 + in1) && e in EntriesOf(v)
    ensures forall r :: r in X + Others(v, level, in0, in1) && r.key.user == e.key.user ==>
            r.key.sequence > e.key.sequence
  {
    hide Newer, Ordered, DistinctNumbers, NewestByNumber, Above, UniqueVersions;
    var f :| f in in0 + in1 && e in f.entries;
    assert ValidFile(f) by { assert f in v[level] || f in v[level + 1]; }
    EntryInRange(f, e);
    forall r | r in Others(v, level, in0, in1) && r.key.user == e.key.user ensures r.key.sequence > e.key.sequence {
      var i, g :| 0 <= i < |v| && g in v[i] && !IsInput(i, g, level, in0, in1) && r in g.entries;
      OtherIsNewer(v, level, in0, in1, f, e, i, g, r);
    }
  }

  /** The installation leaves a valid version exactly when the outputs fit between the files
      that stay on their level. */
  lemma InstallIsValidIffFits(v: Version, level: nat, in0: seq<FileMeta>, in1: seq<FileMeta>, outs: seq<FileMeta>)
    requires ValidVersion(v) && SortedVersion(v) && Mergeable(v, level, in0, in1) && OutputFiles(v, in0 + in1, outs)
    ensures ValidVersion(Edited(v, InstallEdit(level, in0, in1, outs))) <==> Fits(v, level, in1, outs)
  {
    var w: Version := Edited(v, InstallEdit(level, in0, in1, outs));
    if Fits(v, level, in1, outs) {
      InstallKeepsVersion(v, level, in0, in1, outs);
    } else {
      InstallMembers(v, level, in0, in1, outs);
      var g, o :| g in v[level + 1] && g !in in1 && o in outs && !Disjoint(g, o);
      assert AfterInstall(v, level, in0, in1, outs, level + 1, g)
        && AfterInstall(v, level, in0, in1, outs, level + 1, o);
      if ValidVersion(w) { TwoFiles(w[level + 1], g, o); }
    }
  }

  lemma InputOf(inputs: seq<FileMeta>, outs: seq<FileMeta>, o: FileMeta, e: Entry) returns (f: FileMeta)
    requires AllValid(inputs) && Contents(outs) <= Contents(inputs) && o in outs && e in o.entries
    ensures f in inputs && !Less(e.key, f.smallest) && e.key.user <= f.largest.user
  {
    assert e in Contents(outs);
    f :| f in inputs && e in f.entries;
    EntryInRange(f, e);
  }

  lemma OutputSpan(inputs: seq<FileMeta>, outs: seq<FileMeta>, o: FileMeta) returns (f: FileMeta, h: FileMeta)
    requires AllValid(inputs) && ValidFile(o) && Contents(outs) <= Contents(inputs) && o in outs
    ensures f in inputs && !Less(o.smallest, f.smallest)
    ensures h in inputs && o.largest.user <= h.largest.user
  {
    f := InputOf(inputs, outs, o, o.entries[0]);
    h := InputOf(inputs, outs, o, o.entries[|o.entries|-1]);
  }

  /** A legal choice of inputs leaves room for the outputs. */
  lemma LegalFits(files: seq<FileMeta>, in0: seq<FileMeta>, in1: seq<FileMeta>, outs: seq<FileMeta>)
    requires AllValid(in0 + in1) && AllValid(outs) && Contents(outs) <= Contents(in0 + in1)
    requires LegalLower(files, in0, in1)
    ensures forall g, o :: g in files && g !in in1 && o in outs ==> Disjoint(g, o)
  {
    forall g, o | g in files && g !in in1 && o in outs ensures Disjoint(g, o) {
      var f, h := OutputSpan(in0 + in1, outs, o);
      if !LeftOf(g, in0 + in1) { assert UserRightOf(g, in0 + in1); }
    }
  }

  // ----- a memtable flushed while a merge is running -----

  /** A flush never spoils what the merge needs to know about newer files. */
  lemma FlushKeepsMergeable(v: Version, w: Version, f: FileMeta, p: nat, level: nat, in0: seq<FileMeta>,
                            in1: seq<FileMeta>)
    requires Mergeable(v, level, in0, in1) && NewerThanVersion(f.entries, v)
    requires |w| == |v| && forall l, g :: 0 <= l < |v| ==> (g in w[l] <==> g in v[l] || (l == p && g == f))
    ensures Mergeable(w, level, in0, in1)
  {
    forall h | h in in0 + in1 ensures Newer(f.entries, h.entries) {
      assert h in v[level] || h in v[level + 1];
    }
  }

  lemma FlushKeepsBase(inputVersion: Version, v: Version, w: Version, f: FileMeta, p: nat, level: nat,
                       in0: seq<FileMeta>, in1: seq<FileMeta>)
    requires |w| == |v| && level + 1 < |v| && Subset(in0, v[level]) && Subset(in1, v[level + 1]) && Placeable(v, f, p)
    requires forall l, g :: 0 <= l < |v| ==> (g in w[l] <==> g in v[l] || (l == p && g == f))
    requires BaseStays(inputVersion, v, level, in0 + in1)
    ensures BaseStays(inputVersion, w, level, in0 + in1)
  {
    forall h, u | h in in0 + in1 && InUserRange(h, u) && BaseLevel(inputVersion, level, u)
      ensures BaseLevel(w, level, u) {
      assert BaseLevel(v, level, u);
      var k := if h in in0 then level else level + 1;
      if p >= level + 2 { assert Clear(v[k], UserRange(f.smallest, f.largest)); }
    }
  }

  lemma ConnectedCovers(fs: seq<FileMeta>, a: FileMeta, b: FileMeta, x: UserKey)
    requires Connected(fs) && a in fs && b in fs && a.smallest.user <= x <= b.largest.user
    ensures CoveredAt(fs, x)
  {}

  /** When the inputs have no gap, a memtable flushed to the output level lies outside their range. */
  lemma FlushMissesConnectedInputs(v: Version, f: FileMeta, level: nat, in0: seq<FileMeta>, in1: seq<FileMeta>)
    requires level + 1 < |v| && Subset(in0, v[level]) && Subset(in1, v[level + 1])
    requires ValidFile(f) && Placeable(v, f, level + 1) && AllValid(in0 + in1) && Connected(in0 + in1)
    ensures UserLeftOf(f, in0 + in1) || UserRightOf(f, in0 + in1)
  {
    var ins := in0 + in1;
    FileSpan(f);
    forall h | h in ins ensures !Overlaps(h, UserRange(f.smallest, f.largest)) {
      var k := if h in in0 then level else level + 1;
      assert Clear(v[k], UserRange(f.smallest, f.largest));
    }
    if !UserLeftOf(f, ins) && !UserRightOf(f, ins) {
      var a :| a in ins && a.smallest.user <= f.largest.user;
      var b :| b in ins && f.smallest.user <= b.largest.user;
      FileSpan(a);
      ConnectedCovers(ins, a, b, f.smallest.user);
      assert false;
    }
  }
}
