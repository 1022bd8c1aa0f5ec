/** From the parts of a database to its iterator: every table and memtable behind one merging
    iterator, whose visible entries are the map of all writes. */
module Iterations {
  import opened InternalKeys
  import opened Versions
  import opened Builders
  import opened Manifests
  import opened Merging
  import opened Invisibility
  import opened Installs
  import opened Engine
  import opened Cursors
  import opened MergingIterators
  import opened DbIterators
  import opened Databases
  import opened Sources

  // ----- the parts of a database do not meet -----

  lemma Parts(st: State)
    requires Inv(st)
    ensures UniqueVersions(Stored(st)) && Sorted(st.mem) && Sorted(Immutable(st))
    ensures Elements(st.mem) !! Elements(Immutable(st)) && InMemory(st) !! EntriesOf(st.version)
    ensures |st.version| == NUM_LEVELS
  {
    hide Faithful, SnapshotsOk, NumbersUsed, JobOk, ValidVersion, SortedVersion;
    StoredUnique(st);
    VersionSize(st);
  }

  /** All sources of the database behind one merging iterator. */
  method NewInternalIterator(db: DBImpl) returns (iter: MergingIterator)
    requires db.Valid()
    ensures iter.Inv() && fresh(iter) && forall i :: 0 <= i < |iter.children| ==> fresh(iter.children[i])
    ensures Elements(iter.all) == Stored(db.Abstract())
  {
    hide Engine.Inv, Behind, Apart, ValidVersion, SortedVersion, UniqueVersions, MergingIterator.Inv, DBImpl.Valid,
         SetNewer;
    DatabaseInv(db);
    ghost var st := db.Abstract();
    Parts(st);
    LayersOf(st);
    var list: seq<Cursor> := [];
    ghost var all: seq<Entry> := [];
    Nobody();
    SubsetApart(st, {}, Elements(st.mem));
    list, all := AddChild(list, all, db.mem);
    if db.imm.Some? {
      assert Elements(all) == Elements(st.mem);
      SubsetApart(st, Elements(st.mem), Elements(Immutable(st)));
      list, all := AddChild(list, all, db.imm.value);
    }
    assert Elements(all) == InMemory(st);
    SubsetApart(st, InMemory(st), EntriesOf(st.version));
    list, all := AddIterators(db.version, list, all);
    iter := MergeAll(list, all);
  }

  lemma SubsetApart(st: State, E: set<Entry>, F: set<Entry>)
    requires UniqueVersions(Stored(st)) && E + F <= Stored(st) && E !! F
    ensures Apart(E, F)
  {}

  lemma ViewBounds(all: seq<Entry>, s: nat, idx: seq<nat>)
    requires IsView(all, s, idx)
    ensures forall a :: 0 <= a < |idx| ==> idx[a] < |all|
  {
    forall a | 0 <= a < |idx| ensures idx[a] < |all| { assert Visible(all, s, idx[a]); }
  }

  /** The listed entries are those of `m`, in increasing order of their keys. */
  ghost predicate ListsMap(all: seq<Entry>, idx: seq<nat>, m: map<UserKey, Bytes>) {
    && (forall a :: 0 <= a < |idx| ==>
       idx[a] < |all| && all[idx[a]].key.user in m && m[all[idx[a]].key.user] == all[idx[a]].value)
    && (forall a, b :: 0 <= a < b < |idx| ==>
       idx[a] < |all| && idx[b] < |all| && all[idx[a]].key.user < all[idx[b]].key.user)
    && (forall u :: u in m ==> exists a :: 0 <= a < |idx| && idx[a] < |all| && all[idx[a]].key.user == u)
  }

  /** What an iterator at `s` yields is the map of all writes up to `s`, in key order. */
  lemma IterationIsMap(st: State, all: seq<Entry>, s: nat, idx: seq<nat>)
    requires Engine.Inv(st) && (s == st.lastSequence || s in st.snapshots)
    requires Sorted(all) && Elements(all) == Stored(st) && IsView(all, s, idx)
    ensures ListsMap(all, idx, MapAt(st.history, s))
  {
    hide Engine.Inv, IsView, Visible, UniqueVersions;
    var m := MapAt(st.history, s);
    ViewUsersIncrease(all, s, idx);
    ViewBounds(all, s, idx);
    forall u
      ensures u in m <==> exists a :: 0 <= a < |idx| && idx[a] < |all| && all[idx[a]].key.user == u
      ensures forall a :: 0 <= a < |idx| && idx[a] < |all| && all[idx[a]].key.user == u ==>
              u in m && m[u] == all[idx[a]].value
    {
      KeyIsListed(st, all, s, idx, u);
    }
  }

  lemma KeyIsListed(st: State, all: seq<Entry>, s: nat, idx: seq<nat>, u: UserKey)
    requires Engine.Inv(st) && (s == st.lastSequence || s in st.snapshots)
    requires Sorted(all) && Elements(all) == Stored(st) && IsView(all, s, idx)
    ensures u in MapAt(st.history, s) <==> exists a :: 0 <= a < |idx| && idx[a] < |all| && all[idx[a]].key.user == u
    ensures forall a :: 0 <= a < |idx| && idx[a] < |all| && all[idx[a]].key.user == u ==>
              u in MapAt(st.history, s) && MapAt(st.history, s)[u] == all[idx[a]].value
  {
    hide Layered, NumbersUsed, JobOk, IsView, Visible, UniqueVersions;
    StoredUnique(st);
    ViewBounds(all, s, idx);
    ViewIsReads(all, s, idx, u);
    assert Read(Stored(st), u, s) == Read(Elements(st.history), u, s);
    ReadIsMapLookup(st.history, u, s);
  }

  /** An iterator over the database at a held snapshot or at the last sequence number: its
      positions are the keys of the map of all writes up to there. */
  method NewIterator(db: DBImpl, snapshot: Option<nat>) returns (iter: DBIter)
    requires db.Valid() && (snapshot.Some? ==> snapshot.value in db.snapshots)
    ensures fresh(iter) && fresh(iter.iter) && forall i :: 0 <= i < |iter.iter.children| ==>
            fresh(iter.iter.children[i])
    ensures iter.Inv() && iter.pos == |iter.idx|
    ensures ListsMap(iter.iter.all, iter.idx,
            MapAt(db.history, if snapshot.Some? then snapshot.value else db.lastSequence))
  {
    hide Engine.Inv, IsView, MergingIterator.Inv, ListsMap, DBImpl.Valid;
    DatabaseInv(db);
    var internal := NewInternalIterator(db);
    internal.Outside();
    var s := if snapshot.Some? then snapshot.value else db.lastSequence;
    ghost var idx := ViewOf(internal.all, s);
    IterationIsMap(db.Abstract(), internal.all, s, idx);
    iter := new DBIter(internal, s, idx);
  }

  lemma DatabaseInv(db: DBImpl)
    requires db.Valid()
    ensures Engine.Inv(db.Abstract())
  {}

  lemma ViewOf(all: seq<Entry>, s: nat) returns (idx: seq<nat>)
    ensures IsView(all, s, idx)
  {
    idx := ViewExists(all, s, |all|);
  }
}
