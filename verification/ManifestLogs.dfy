/** The manifest as a file: records of version edits that name tables but do not hold them. */
module ManifestLogs {
  import opened InternalKeys
  import opened Versions
  import opened Builders
  import opened Manifests
  import opened Installs

  // ----- what a manifest says about a table -----

  /** Number, size and key range are in the manifest, the entries are not. */
  function Bare(f: FileMeta): FileMeta { f.(entries := []) }

  function BareFiles(fs: seq<FileMeta>): (r: seq<FileMeta>)
    ensures |r| == |fs| && forall i :: 0 <= i < |fs| ==> r[i] == Bare(fs[i])
  {
    if fs == [] then [] else [Bare(fs[0])] + BareFiles(fs[1..])
  }

  function BareVersion(v: Version): Version {
    seq(|v|, l requires 0 <= l < |v| => BareFiles(v[l]))
  }

  function BareAdded(added: seq<(nat, FileMeta)>): seq<(nat, FileMeta)> {
    seq(|added|, i requires 0 <= i < |added| => (added[i].0, Bare(added[i].1)))
  }

  function BareEdit(edit: FileEdit): FileEdit { FileEdit(edit.deleted, BareAdded(edit.added)) }

  function BareState(s: LevelState): LevelState { LevelState(s.deleted, BareFiles(s.added)) }

  lemma {:induction false} InsertBare(fs: seq<FileMeta>, f: FileMeta)
    ensures BareFiles(Insert(fs, f)) == Insert(BareFiles(fs), Bare(f))
  {
    if fs != [] {
      InsertBare(fs[1..], f);
      assert BareFiles(fs)[1..] == BareFiles(fs[1..]);
    }
  }

  lemma {:induction false} MergeBare(base: seq<FileMeta>, added: seq<FileMeta>)
    ensures BareFiles(Merge(base, added)) == Merge(BareFiles(base), BareFiles(added))
    decreases |base| + |added|
  {
    if added != [] && base != [] {
      MergeBare(base, added[1..]);
      MergeBare(base[1..], added);
      assert BareFiles(base)[1..] == BareFiles(base[1..]) && BareFiles(added)[1..] == BareFiles(added[1..]);
    }
  }

  lemma {:induction false} UndeletedBare(fs: seq<FileMeta>, deleted: set<nat>)
    ensures BareFiles(Undeleted(fs, deleted)) == Undeleted(BareFiles(fs), deleted)
  {
    if fs != [] {
      UndeletedBare(fs[1..], deleted);
      assert BareFiles(fs)[1..] == BareFiles(fs[1..]);
    }
  }

  lemma {:induction false} AddFilesBare(s: LevelState, added: seq<(nat, FileMeta)>, level: nat)
    ensures BareState(AddFiles(s, added, level)) == AddFiles(BareState(s), BareAdded(added), level)
  {
    if added != [] {
      var n := |added| - 1;
      AddFilesBare(s, added[..n], level);
      assert BareAdded(added)[..n] == BareAdded(added[..n]);
      InsertBare(AddFiles(s, added[..n], level).added, added[n].1);
    }
  }

  /** Applying an edit to a version and dropping the entries can be done in either order. */
  lemma EditedBare(v: Version, edit: FileEdit)
    requires |v| == NUM_LEVELS
    ensures BareVersion(Edited(v, edit)) == Edited(BareVersion(v), BareEdit(edit))
  {
    forall l | 0 <= l < NUM_LEVELS ensures BareFiles(Edited(v, edit)[l]) == Edited(BareVersion(v), BareEdit(edit))[l] {
      assert NOTHING[l] == EMPTY;
      var s := ApplyAt(EMPTY, edit, l);
      AddFilesBare(EMPTY.(deleted := EMPTY.deleted + DeletedAt(edit, l)), edit.added, l);
      MergeBare(v[l], s.added);
      UndeletedBare(Merge(v[l], s.added), s.deleted);
    }
  }

  // ----- the tables that a version names -----

  ghost predicate TablesThere(v: Version, tables: map<nat, FileMeta>) {
    forall l, f :: 0 <= l < |v| && f in v[l] ==> f.number in tables
  }

  /** Every table that the version names is there, with its entries. */
  ghost predicate Present(v: Version, tables: map<nat, FileMeta>) {
    forall l, f :: 0 <= l < |v| && f in v[l] ==> f.number in tables && tables[f.number] == f
  }

  ghost function LoadedFiles(fs: seq<FileMeta>, tables: map<nat, FileMeta>): seq<FileMeta>
    requires forall f :: f in fs ==> f.number in tables
  {
    seq(|fs|, i requires 0 <= i < |fs| => fs[i].(entries := tables[fs[i].number].entries))
  }

  /** The version with the entries that its tables hold. */
  ghost function Loaded(v: Version, tables: map<nat, FileMeta>): Version
    requires TablesThere(v, tables)
  {
    seq(|v|, l requires 0 <= l < |v| => LoadedFiles(v[l], tables))
  }

  lemma LoadBare(v: Version, tables: map<nat, FileMeta>)
    requires Present(v, tables)
    ensures TablesThere(BareVersion(v), tables) && Loaded(BareVersion(v), tables) == v
  {
    var w := BareVersion(v);
    forall l, f: FileMeta | 0 <= l < |w| && f in w[l] ensures f.number in tables {
      var i :| 0 <= i < |w[l]| && w[l][i] == f;
      assert v[l][i] in v[l];
    }
    forall l | 0 <= l < |v| ensures LoadedFiles(w[l], tables) == v[l] {
      forall i | 0 <= i < |v[l]| ensures LoadedFiles(w[l], tables)[i] == v[l][i] { assert v[l][i] in v[l]; }
    }
  }

  // ----- records -----

  /** An edit, and the log number and last sequence number when the record sets them. */
  datatype Record = Record(edit: FileEdit, log: Option<nat>, last: Option<nat>)

  function Edits(m: seq<Record>): (r: seq<FileEdit>) {
    seq(|m|, i requires 0 <= i < |m| => m[i].edit)
  }

  /** Later records override earlier ones. */
  function NamedLog(m: seq<Record>): Option<nat> {
    if m == [] then None else if m[|m|-1].log.Some? then m[|m|-1].log else NamedLog(m[..|m|-1])
  }

  function NamedLast(m: seq<Record>): Option<nat> {
    if m == [] then None else if m[|m|-1].last.Some? then m[|m|-1].last else NamedLast(m[..|m|-1])
  }

  /** The (level, number) pairs that edits have added. */
  function EnteredBy(edit: FileEdit): set<(nat, nat)> {
    set i | 0 <= i < |edit.added| :: (edit.added[i].0, edit.added[i].1.number)
  }

  function Entered(edits: seq<FileEdit>): set<(nat, nat)> {
    if edits == [] then {} else Entered(edits[..|edits|-1]) + EnteredBy(edits[|edits|-1])
  }

  lemma {:induction false} InsertFrom(fs: seq<FileMeta>, f: FileMeta)
    ensures forall g :: g in Insert(fs, f) ==> g in fs || g == f
  {
    if fs != [] { InsertFrom(fs[1..], f); }
  }

  lemma {:induction false} AddedFrom(s: LevelState, added: seq<(nat, FileMeta)>, level: nat)
    ensures forall g :: g in AddFiles(s, added, level).added ==> g in s.added || AddedAt(added, level, g)
  {
    if added != [] {
      var n := |added| - 1;
      AddedFrom(s, added[..n], level);
      InsertFrom(AddFiles(s, added[..n], level).added, added[n].1);
      assert added == added[..n] + [added[n]];
    }
  }

  /** What a builder has accumulated on a level has entered that level. */
  lemma {:induction false} AccumulatedEntered(edits: seq<FileEdit>, l: nat)
    requires l < NUM_LEVELS
    ensures forall g :: g in Accumulated(edits)[l].added ==> (l, g.number) in Entered(edits)
  {
    if edits == [] {
      assert NOTHING[l] == EMPTY;
    } else {
      var n := |edits| - 1;
      var s, e := Accumulated(edits[..n]), edits[n];
      AccumulatedEntered(edits[..n], l);
      AddedFrom(s[l].(deleted := s[l].deleted + DeletedAt(e, l)), e.added, l);
      forall g | AddedAt(e.added, l, g) ensures (l, g.number) in EnteredBy(e) {
        var i :| 0 <= i < |e.added| && e.added[i] == (l, g);
      }
    }
  }

  /** The edits of the manifest lead to `v`, no number entered a level twice, and a table in `v`
      never was on a deeper level; `used` has every number that entered. */
  ghost predicate Manifested(edits: seq<FileEdit>, v: Version, used: set<nat>) {
    && |v| == NUM_LEVELS && EntersOnce(NO_FILES, edits) && OneByOne(NO_FILES, edits) == BareVersion(v)
    && (forall p :: p in Entered(edits) ==> p.1 in used)
    && (forall c, f, l :: 0 <= c < l && c < |v| && f in v[c] ==> (l, f.number) !in Entered(edits))
  }

  /** The numbers an edit adds are new to their levels. */
  ghost predicate NewEntries(edits: seq<FileEdit>, edit: FileEdit) {
    && EnteredBy(edit) !! Entered(edits)
    && forall i, j :: 0 <= i < j < |edit.added| && edit.added[i].0 == edit.added[j].0 ==>
       edit.added[i].1.number != edit.added[j].1.number
  }

  lemma EnteredBare(edit: FileEdit)
    ensures EnteredBy(BareEdit(edit)) == EnteredBy(edit)
  {
    var e := BareEdit(edit);
    assert forall i :: 0 <= i < |edit.added| ==>
      (e.added[i].0, e.added[i].1.number) == (edit.added[i].0, edit.added[i].1.number);
    forall p | p in EnteredBy(edit) ensures p in EnteredBy(e) {
      var i :| 0 <= i < |edit.added| && p == (edit.added[i].0, edit.added[i].1.number);
      assert p == (e.added[i].0, e.added[i].1.number);
    }
  }

  lemma NewIsFresh(edits: seq<FileEdit>, edit: FileEdit, l: nat)
    requires NewEntries(edits, edit) && l < NUM_LEVELS
    ensures FreshAt(NO_FILES, Accumulated(edits), BareEdit(edit), l)
  {
    var e := BareEdit(edit);
    EnteredBare(edit);
    AccumulatedEntered(edits, l);
    forall i, g | 0 <= i < |e.added| && e.added[i].0 == l && g in Accumulated(edits)[l].added
      ensures g.number != e.added[i].1.number {
      assert (l, e.added[i].1.number) in EnteredBy(e);
    }
  }

  lemma EditedSize(v: Version, edit: FileEdit)
    requires |v| == NUM_LEVELS
    ensures |Edited(v, edit)| == NUM_LEVELS
  {}

  /** Logging an edit. */
  lemma LogEdit(edits: seq<FileEdit>, v: Version, used: set<nat>, edit: FileEdit, used': set<nat>)
    requires Manifested(edits, v, used) && NewEntries(edits, edit)
    requires used <= used' && forall p :: p in EnteredBy(edit) ==> p.1 in used'
    requires forall c, f, l :: 0 <= c < l && c < NUM_LEVELS && f in Edited(v, edit)[c] ==>
             (l, f.number) !in Entered(edits) + EnteredBy(edit)
    ensures Manifested(edits + [BareEdit(edit)], Edited(v, edit), used')
  {
    hide NewEntries, BareEdit, EnteredBy, EntersOnce, OneByOne, Edited, BareVersion;
    var all := edits + [BareEdit(edit)];
    assert all[..|edits|] == edits;
    EditedSize(v, edit);
    EnteredBare(edit);
    LogOneMore(edits, v, edit);
  }

  /** The longer list of edits leads to the edited version. */
  lemma LogOneMore(edits: seq<FileEdit>, v: Version, edit: FileEdit)
    requires |v| == NUM_LEVELS && EntersOnce(NO_FILES, edits) && OneByOne(NO_FILES, edits) == BareVersion(v)
             && NewEntries(edits, edit)
    ensures EntersOnce(NO_FILES, edits + [BareEdit(edit)])
            && OneByOne(NO_FILES, edits + [BareEdit(edit)]) == BareVersion(Edited(v, edit))
  {
    hide NewEntries, BareEdit, FreshAt, Edited, BareVersion;
    assert (edits + [BareEdit(edit)])[..|edits|] == edits;
    EditedBare(v, edit);
    forall l | 0 <= l < NUM_LEVELS
      ensures FreshAt(NO_FILES, Accumulated(edits), BareEdit(edit), l) { NewIsFresh(edits, edit, l); }
  }

  // ----- the edits that are logged -----

  function AddedNumbers(edit: FileEdit): set<nat> {
    set i | 0 <= i < |edit.added| :: edit.added[i].1.number
  }

  /** The tables of the edit have numbers that differ from each other and were never used. */
  ghost predicate NewTables(edit: FileEdit, used: set<nat>) {
    && (forall i :: 0 <= i < |edit.added| ==> edit.added[i].1.number !in used)
    && (forall i, j :: 0 <= i < j < |edit.added| ==> edit.added[i].1.number != edit.added[j].1.number)
  }

  lemma OneLevelEach(edit: FileEdit, used: set<nat>, i: nat, l: nat)
    requires NewTables(edit, used) && i < |edit.added| && l != edit.added[i].0
    ensures (l, edit.added[i].1.number) !in EnteredBy(edit)
  {}

  /** An edit that adds new tables only: a flush, a merge, what recovery writes. */
  lemma LogNewTables(edits: seq<FileEdit>, v: Version, used: set<nat>, edit: FileEdit)
    requires Manifested(edits, v, used) && NewTables(edit, used)
    requires forall l, g :: 0 <= l < |v| && g in v[l] ==> g.number in used
    requires forall l, g :: 0 <= l < NUM_LEVELS && g in Edited(v, edit)[l] ==> g in v[l] || AddedAt(edit.added, l, g)
    ensures Manifested(edits + [BareEdit(edit)], Edited(v, edit), used + AddedNumbers(edit))
  {
    hide BareVersion, EntersOnce, OneByOne, Edited, BareEdit;
    EditedSize(v, edit);
    forall p | p in EnteredBy(edit) ensures p.1 !in used && p.1 in AddedNumbers(edit) {
      var i :| 0 <= i < |edit.added| && p == (edit.added[i].0, edit.added[i].1.number);
    }
    forall c, f, l | 0 <= c < l && c < NUM_LEVELS && f in Edited(v, edit)[c]
      ensures (l, f.number) !in Entered(edits) + EnteredBy(edit) {
      if f in v[c] {
        assert f.number in used;
      } else {
        var i :| 0 <= i < |edit.added| && edit.added[i] == (c, f);
        OneLevelEach(edit, used, i, l);
      }
    }
    LogEdit(edits, v, used, edit, used + AddedNumbers(edit));
  }

  /** A file that is moved down comes to a level where its number never was. */
  lemma LogMove(edits: seq<FileEdit>, v: Version, used: set<nat>, f: FileMeta, level: nat)
    requires Manifested(edits, v, used) && ValidVersion(v) && SortedVersion(v) && level + 1 < NUM_LEVELS
             && f in v[level]
    ensures Manifested(edits + [BareEdit(MoveEdit(f, level))], Edited(v, MoveEdit(f, level)), used)
  {
    hide BareVersion, EntersOnce, OneByOne, Edited, BareEdit, SortedVersion, ValidFile, Newer, Above, NewestByNumber,
         Ordered;
    var edit := MoveEdit(f, level);
    MoveMembers(v, f, level);
    assert EnteredBy(edit) == {(level + 1, f.number)} by { assert edit.added[0] == (level + 1, f); }
    NumberWasUsed(edits, v, used, f, level);
    EditedSize(v, edit);
    forall c, g, l | 0 <= c < l && c < NUM_LEVELS && g in Edited(v, edit)[c]
      ensures (l, g.number) !in Entered(edits) + EnteredBy(edit) {
      if g != f { PairInVersion(v, c, g, level, f); }
    }
    LogEdit(edits, v, used, edit, used);
  }

  lemma {:induction false} OneByOneEntered(edits: seq<FileEdit>, l: nat)
    requires EntersOnce(NO_FILES, edits) && l < NUM_LEVELS
    ensures forall g :: g in OneByOne(NO_FILES, edits)[l] ==> (l, g.number) in Entered(edits)
  {
    assert SortedVersion(NO_FILES);
    ReplayStep(NO_FILES, edits);
    SavedIs(NO_FILES, Accumulated(edits), l);
    AccumulatedEntered(edits, l);
  }

  /** Every table of the version entered its level. */
  lemma NumberWasUsed(edits: seq<FileEdit>, v: Version, used: set<nat>, f: FileMeta, level: nat)
    requires Manifested(edits, v, used) && level < NUM_LEVELS && f in v[level]
    ensures (level, f.number) in Entered(edits) && f.number in used
  {
    OneByOneEntered(edits, level);
    var i :| 0 <= i < |v[level]| && v[level][i] == f;
    assert OneByOne(NO_FILES, edits)[level][i] == Bare(f);
  }

  lemma BareSorted(v: Version)
    requires SortedVersion(v) && DistinctNumbers(v)
    ensures SortedVersion(BareVersion(v)) && LevelNumbersDiffer(BareVersion(v))
  {
    var w := BareVersion(v);
    forall l, i, j | 0 <= l < |w| && 0 <= i < j < |w[l]|
      ensures BySmallest(w[l][i], w[l][j]) && w[l][i].number != w[l][j].number {
      assert v[l][i] in v[l] && v[l][j] in v[l] && SortedFiles(v[l]) && BySmallest(v[l][i], v[l][j]);
    }
  }

  /** A manifest that begins with all files of a version. */
  lemma SnapshotManifest(v: Version, used: set<nat>)
    requires |v| == NUM_LEVELS && SortedVersion(v) && DistinctNumbers(v) && forall l, g :: 0 <= l < |v| && g in v[l] ==>
             g.number in used
    ensures Manifested([FileEdit({}, AllFiles(BareVersion(v), NUM_LEVELS))], v, used)
  {
    hide DistinctNumbers, LevelNumbersDiffer, SortedVersion, AllFiles, OneByOne, EntersOnce, Entered;
    var w := BareVersion(v);
    var edits := [FileEdit({}, AllFiles(w, NUM_LEVELS))];
    BareSorted(v);
    SnapshotEdits(w);
    forall p | p in Entered(edits)
      ensures p.0 < NUM_LEVELS && exists g :: g in v[p.0] && g.number == p.1 { SnapshotEntered(v, p); }
    SameNumbers(v);
  }

  lemma SnapshotEdits(w: Version)
    requires |w| == NUM_LEVELS && SortedVersion(w) && LevelNumbersDiffer(w)
    ensures EntersOnce(NO_FILES, [FileEdit({}, AllFiles(w, NUM_LEVELS))])
    ensures OneByOne(NO_FILES, [FileEdit({}, AllFiles(w, NUM_LEVELS))]) == w
  {
    hide SortedVersion, LevelNumbersDiffer, AllFiles, FreshNumbers, Edited;
    var edits := [FileEdit({}, AllFiles(w, NUM_LEVELS))];
    SnapshotRebuilds(w);
    assert edits[..0] == [] && OneByOne(NO_FILES, []) == NO_FILES;
    forall l | 0 <= l < NUM_LEVELS ensures FreshAt(NO_FILES, Accumulated([]), edits[0], l) {
      AllFilesFresh(w, NUM_LEVELS, l);
      assert NOTHING[l] == EMPTY && NO_FILES[l] == [];
    }
  }

  lemma SnapshotEntered(v: Version, p: (nat, nat))
    requires |v| == NUM_LEVELS && p in Entered([FileEdit({}, AllFiles(BareVersion(v), NUM_LEVELS))])
    ensures p.0 < NUM_LEVELS && exists g :: g in v[p.0] && g.number == p.1
  {
    var w := BareVersion(v);
    var edit := FileEdit({}, AllFiles(w, NUM_LEVELS));
    assert [edit][..0] == [] && p in EnteredBy(edit);
    var i :| 0 <= i < |edit.added| && p == (edit.added[i].0, edit.added[i].1.number);
    AllFilesMembers(w, NUM_LEVELS);
    assert AddedAt(edit.added, p.0, edit.added[i].1);
    var j :| 0 <= j < |w[p.0]| && w[p.0][j] == edit.added[i].1;
    assert v[p.0][j] in v[p.0];
  }

  lemma SameNumbers(v: Version)
    requires DistinctNumbers(v)
    ensures forall c, l, f, g :: 0 <= c < l < |v| && f in v[c] && g in v[l] ==> f.number != g.number
  {}

  // ----- reading a manifest -----

  /** Replaying the edits and looking the tables up gives the version that was current. */
  lemma ManifestRecovers(edits: seq<FileEdit>, v: Version, used: set<nat>, tables: map<nat, FileMeta>)
    requires Manifested(edits, v, used) && Present(v, tables)
    ensures var w: Version := Saved(NO_FILES, Accumulated(edits));
            w == BareVersion(v) && TablesThere(w, tables) && Loaded(w, tables) == v
  {
    assert SortedVersion(NO_FILES);
    ReplayIsOneByOne(NO_FILES, edits);
    LoadBare(v, tables);
  }

  lemma EditsSnoc(m: seq<Record>, r: Record)
    ensures Edits(m + [r]) == Edits(m) + [r.edit]
    ensures NamedLog(m + [r]) == if r.log.Some? then r.log else NamedLog(m)
    ensures NamedLast(m + [r]) == if r.last.Some? then r.last else NamedLast(m)
  {
    assert (m + [r])[..|m|] == m;
  }
}
