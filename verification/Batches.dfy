/** Batches of writes: what log records say about a history. */
module Batches {
  import opened InternalKeys
  import opened Versions
  import opened Inputs
  import opened Picking
  import opened Invisibility
  import opened Builders
  import opened Manifests
  import opened Installs
  import opened Engine
  import opened PlainMaps

  // ----- batches -----

  /** The operations of one log record, the first of their consecutive sequence numbers, and
      whether the writer asked for a sync. */
  datatype Batch = Batch(first: nat, ops: seq<Op>, sync: bool) {
    function Next(): nat { first + |ops| }
  }

  function StampFrom(ops: seq<Op>, first: nat): (r: seq<Entry>)
    ensures |r| == |ops|
  {
    if ops == [] then [] else StampFrom(ops[..|ops|-1], first) + [Stamped(ops[|ops|-1], first + |ops| - 1)]
  }

  /** All writes of `bs` in order. */
  function Writes(bs: seq<Batch>): seq<Entry> {
    if bs == [] then [] else Writes(bs[..|bs|-1]) + StampFrom(bs[|bs|-1].ops, bs[|bs|-1].first)
  }

  /** The batches follow each other in sequence numbers, all after `last`. */
  predicate Follow(bs: seq<Batch>, last: nat) {
    && (forall i :: 0 <= i < |bs| ==> last < bs[i].first && bs[i].Next() <= MAX_SEQUENCE)
    && (forall i, j :: 0 <= i < j < |bs| ==> bs[i].Next() <= bs[j].first)
  }

  function LastOf(bs: seq<Batch>): nat {
    if bs == [] || bs[|bs|-1].Next() == 0 then 0 else bs[|bs|-1].Next() - 1
  }

  // ----- writes of batches -----

  lemma WritesSnoc(bs: seq<Batch>, b: Batch)
    ensures Writes(bs + [b]) == Writes(bs) + StampFrom(b.ops, b.first)
  {
    hide StampFrom;
    assert (bs + [b])[..|bs|] == bs;
  }

  lemma {:induction false} WritesConcat(a: seq<Batch>, b: seq<Batch>)
    ensures Writes(a + b) == Writes(a) + Writes(b)
  {
    hide StampFrom;
    if b == [] {
      assert a + b == a;
    } else {
      var init, x := b[..|b|-1], b[|b|-1];
      WritesConcat(a, init);
      assert a + b == (a + init) + [x];
      WritesSnoc(a + init, x);
      assert Writes(a) + (Writes(init) + StampFrom(x.ops, x.first))
        == (Writes(a) + Writes(init)) + StampFrom(x.ops, x.first);
    }
  }

  lemma {:induction false} StampedSequence(ops: seq<Op>, first: nat, e: Entry)
    requires e in StampFrom(ops, first)
    ensures first <= e.key.sequence < first + |ops|
  {
    if e in StampFrom(ops[..|ops|-1], first) { StampedSequence(ops[..|ops|-1], first, e); }
  }

  lemma {:induction false} WriteOf(bs: seq<Batch>, e: Entry) returns (i: nat)
    requires e in Writes(bs)
    ensures i < |bs| && bs[i].first <= e.key.sequence < bs[i].Next()
  {
    hide StampFrom;
    if e in Writes(bs[..|bs|-1]) {
      i := WriteOf(bs[..|bs|-1], e);
    } else {
      i := |bs| - 1;
      StampedSequence(bs[i].ops, bs[i].first, e);
    }
  }

  lemma FollowParts(a: seq<Batch>, b: seq<Batch>, last: nat)
    requires Follow(a + b, last)
    ensures Follow(a, last) && Follow(b, last)
            && (forall i, j :: 0 <= i < |a| && 0 <= j < |b| ==> a[i].Next() <= b[j].first)
  {
    assert forall i :: 0 <= i < |a| ==> (a + b)[i] == a[i];
    assert forall j :: 0 <= j < |b| ==> (a + b)[|a| + j] == b[j];
  }

  lemma WritesBelow(bs: seq<Batch>, e: Entry)
    requires Follow(bs, 0) && e in Writes(bs)
    ensures 0 < e.key.sequence <= LastOf(bs)
  {
    var i := WriteOf(bs, e);
    if i < |bs| - 1 { assert bs[i].Next() <= bs[|bs|-1].first; }
  }

  /** Later batches have later writes. */
  lemma WritesOrdered(a: seq<Batch>, b: seq<Batch>, x: Entry, y: Entry)
    requires Follow(a + b, 0) && x in Writes(a) && y in Writes(b)
    ensures x.key.sequence < y.key.sequence
  {
    FollowParts(a, b, 0);
    var i := WriteOf(a, x);
    var j := WriteOf(b, y);
  }

  /** Writing a batch adds its stamped operations to the history and to the memtable. */
  lemma {:induction false} BatchWritten(st: State, ops: seq<Op>)
    requires Inv(st) && st.lastSequence + |ops| < MAX_SEQUENCE
    ensures var r := WriteBatch(st, ops);
            && Inv(r) && r.history == st.history + StampFrom(ops, st.lastSequence + 1)
            && Elements(r.mem) == Elements(st.mem) + Elements(StampFrom(ops, st.lastSequence + 1))
            && r == st.(mem := r.mem, history := r.history, lastSequence := st.lastSequence + |ops|)
  {
    hide Inv, WriteOne, Elements;
    if ops == [] {
      assert st.history + [] == st.history;
      NoElements(Elements(st.mem));
    } else {
      var init, op := ops[..|ops|-1], ops[|ops|-1];
      BatchWritten(st, init);
      WriteBatchKeepsInv(st, ops);
      var mid := WriteBatch(st, init);
      OneWritten(mid, op);
      var h := StampFrom(init, st.lastSequence + 1);
      var e := Stamped(op, mid.lastSequence + 1);
      assert st.history + h + [e] == st.history + (h + [e]);
      ElementsSnoc(h, e, Elements(st.mem));
    }
  }

  lemma NoElements(E: set<Entry>)
    ensures E + Elements([]) == E
  {}

  lemma ElementsSnoc(h: seq<Entry>, e: Entry, E: set<Entry>)
    ensures E + Elements(h) + {e} == E + Elements(h + [e])
  {}

  lemma OneWritten(st: State, op: Op)
    requires Inv(st)
    ensures var r := WriteOne(st, op);
            && Elements(r.mem) == Elements(st.mem) + {Stamped(op, st.lastSequence + 1)}
            && r == st.(mem := r.mem, history := st.history + [Stamped(op, st.lastSequence + 1)],
               lastSequence := st.lastSequence + 1)
  {
    var e := Stamped(op, st.lastSequence + 1);
    forall x | x in st.mem
      ensures x.key.sequence < e.key.sequence { assert x in Stored(st) && x in Elements(st.history); }
    InsertEntryMembers(st.mem, e);
  }

  lemma ElementsConcat(a: seq<Entry>, b: seq<Entry>)
    ensures Elements(a + b) == Elements(a) + Elements(b)
  {}

  lemma NoWrites()
    ensures Writes([]) == []
  {}

  lemma FollowMore(bs: seq<Batch>, b: Batch, last: nat)
    requires Follow(bs, 0) && LastOf(bs) <= last && last < b.first && b.Next() <= MAX_SEQUENCE
    ensures Follow(bs + [b], 0)
  {
    forall i | 0 <= i < |bs| ensures bs[i].Next() <= b.first {
      if i < |bs| - 1 { assert bs[i].Next() <= bs[|bs|-1].first; }
    }
  }

  lemma DropMiddle(a: seq<Batch>, x: seq<Batch>, b: seq<Batch>)
    requires Follow(a + (x + b), 0)
    ensures Follow(a + b, 0)
  {
    FollowParts(a, x + b, 0);
    FollowParts(x, b, 0);
    assert forall j :: 0 <= j < |b| ==> (x + b)[|x| + j] == b[j];
  }

  lemma FollowInflight(bs: seq<Batch>, b: seq<Batch>, last: nat)
    requires Follow(bs, 0) && LastOf(bs) <= last && |b| <= 1 && Follow(b, last)
    ensures Follow(bs + b, 0)
  {
    if b != [] {
      FollowMore(bs, b[0], last);
      assert b == [b[0]];
    } else {
      assert bs + b == bs;
    }
  }

  lemma PrefixHistory(a: seq<Entry>, b: seq<Entry>)
    requires IsHistory(a + b)
    ensures IsHistory(a)
  {
    assert forall i :: 0 <= i < |a| ==> (a + b)[i] == a[i];
  }

  // ----- layers of entries -----

  lemma LayeredNewer(st: State)
    requires Layered(st)
    ensures SetNewer(InMemory(st), EntriesOf(st.version))
  {
    UpperIsNewer(st);
  }

  /** A newer layer on top of two sets that answer alike. */
  lemma LayerRead(T: set<Entry>, F: set<Entry>, I: set<Entry>, u: UserKey, s: nat)
    requires UniqueVersions(T + I) && UniqueVersions(F + I) && SetNewer(I, T) && SetNewer(I, F)
    requires Read(T, u, s) == Read(F, u, s)
    ensures Read(T + I, u, s) == Read(F + I, u, s)
  {
    if c :| c in I && Candidate(c, u, s) {
      var e := NewestExists(I, u, s, c);
      assert Newest(T + I, u, s, e) && Newest(F + I, u, s, e);
      ReadNewest(T + I, u, s, e);
      ReadNewest(F + I, u, s, e);
    } else {
      NothingOnTop(T, I, u, s);
      NothingOnTop(F, I, u, s);
    }
  }

  lemma NothingOnTop(E: set<Entry>, I: set<Entry>, u: UserKey, s: nat)
    requires UniqueVersions(E + I) && forall c :: c in I ==> !Candidate(c, u, s)
    ensures Read(E + I, u, s) == Read(E, u, s)
  {
    if c :| c in E && Candidate(c, u, s) {
      var e := NewestExists(E, u, s, c);
      assert Newest(E + I, u, s, e) && UniqueVersions(E);
      ReadNewest(E + I, u, s, e);
      ReadNewest(E, u, s, e);
    } else {
      ReadNothing(E + I, u, s);
      ReadNothing(E, u, s);
    }
  }

  /** Reads beyond the newest entry all answer alike. */
  lemma ReadBeyond(E: set<Entry>, u: UserKey, s: nat, s': nat)
    requires UniqueVersions(E) && s <= s' && forall e :: e in E ==> e.key.sequence <= s
    ensures Read(E, u, s) == Read(E, u, s')
  {
    if c :| c in E && Candidate(c, u, s) {
      var e := NewestExists(E, u, s, c);
      assert Newest(E, u, s', e);
      ReadNewest(E, u, s, e);
      ReadNewest(E, u, s', e);
    } else {
      assert forall c :: c in E ==> !Candidate(c, u, s');
      ReadNothing(E, u, s);
      ReadNothing(E, u, s');
    }
  }

  lemma NothingAbove(E: set<Entry>)
    ensures {} + E == E && SetNewer({}, E)
  {}

  // ----- what the batches mean -----

  /** The operations of all batches in order. */
  function OpsIn(bs: seq<Batch>): seq<Op> {
    if bs == [] then [] else OpsIn(bs[..|bs|-1]) + bs[|bs|-1].ops
  }

  lemma {:induction false} StampedOnMap(h: seq<Entry>, ops: seq<Op>, first: nat, s: nat)
    requires first + |ops| <= s + 1
    ensures MapAt(h + StampFrom(ops, first), s) == PerformAll(MapAt(h, s), ops)
  {
    hide MapAt, Perform, Stamped;
    if ops == [] {
      assert h + [] == h;
    } else {
      var init, op := ops[..|ops|-1], ops[|ops|-1];
      StampedOnMap(h, init, first, s);
      MapAfter(h + StampFrom(init, first), op, first + |ops| - 1, s);
      assert h + StampFrom(ops, first) == (h + StampFrom(init, first)) + [Stamped(op, first + |ops| - 1)];
    }
  }

  /** The history of batches is the plain map on which their operations have been performed. */
  lemma {:induction false} BatchesOnMap(bs: seq<Batch>, s: nat)
    requires forall i :: 0 <= i < |bs| ==> bs[i].Next() <= s + 1
    ensures MapAt(Writes(bs), s) == PerformAll(map[], OpsIn(bs))
  {
    hide StampFrom, PerformAll;
    if bs == [] {
      NothingWritten(s);
    } else {
      var init, b := bs[..|bs|-1], bs[|bs|-1];
      BatchesOnMap(init, s);
      StampedOnMap(Writes(init), b.ops, b.first, s);
      PerformedTwice(map[], OpsIn(init), b.ops);
    }
  }

  lemma NothingWritten(s: nat)
    ensures MapAt([], s) == PerformAll(map[], [])
  {}

  lemma NextBelow(bs: seq<Batch>, s: nat)
    requires Follow(bs, 0) && LastOf(bs) <= s
    ensures forall i :: 0 <= i < |bs| ==> bs[i].Next() <= s + 1
  {
    forall i | 0 <= i < |bs| - 1 ensures bs[i].Next() <= s + 1 { assert bs[i].Next() <= bs[|bs|-1].first; }
  }
}
