/** The list of held snapshots: a circular doubly linked list whose oldest member bounds what
    compactions may drop. */
module Snapshots {

  type Pointers = map<SnapshotImpl, SnapshotImpl>

  /** The neighbour after position `k` of a ring of `n`. */
  function After(k: nat, n: nat): nat {
    if k + 1 < n then k + 1 else 0
  }

  /** Following `next` from the first node visits the ring once around; `prev` is its inverse. */
  ghost predicate IsRing(ring: seq<SnapshotImpl>, next: Pointers, prev: Pointers) {
    && (forall i, j :: 0 <= i < j < |ring| ==> ring[i] != ring[j])
    && (forall x :: x in ring ==> x in next && x in prev)
    && forall k :: 0 <= k < |ring| ==> LinkAt(ring, next, prev, k)
  }

  ghost predicate LinkAt(ring: seq<SnapshotImpl>, next: Pointers, prev: Pointers, k: nat)
    requires k < |ring| && forall x :: x in ring ==> x in next && x in prev
  {
    next[ring[k]] == ring[After(k, |ring|)] && prev[ring[After(k, |ring|)]] == ring[k]
  }

  lemma AppendNode(ring: seq<SnapshotImpl>, next: Pointers, prev: Pointers, x: SnapshotImpl)
    requires ring != [] && IsRing(ring, next, prev) && x !in ring
    ensures ring[0] in prev && prev[ring[0]] == ring[|ring| - 1]
    ensures IsRing(ring + [x], next[x := ring[0]][prev[ring[0]] := x], prev[x := prev[ring[0]]][ring[0] := x])
  {
    var n := |ring|;
    assert ring[0] in ring && After(n - 1, n) == 0;
    assert LinkAt(ring, next, prev, n - 1);
    var r, next', prev' := ring + [x], next[x := ring[0]][ring[n - 1] := x], prev[x := ring[n - 1]][ring[0] := x];
    forall k | 0 <= k < |r| ensures LinkAt(r, next', prev', k) {
      if k < n - 1 { assert LinkAt(ring, next, prev, k) && ring[k + 1] != ring[0]; }
    }
  }

  lemma RemoveNode(ring: seq<SnapshotImpl>, next: Pointers, prev: Pointers, i: nat)
    requires 0 < i < |ring| && IsRing(ring, next, prev)
    ensures ring[i] in next && ring[i] in prev && next[ring[i]] in ring && prev[ring[i]] in ring
    ensures var x, r := ring[i], ring[..i] + ring[i + 1..];
            IsRing(r, next[prev[x] := next[x]], prev[next[x] := prev[x]]) && forall y :: y in r ==> y in ring
  {
    hide LinkAt;
    var x, r := ring[i], ring[..i] + ring[i + 1..];
    NodeLeft(ring, next, prev, i);
    var next', prev' := next[prev[x] := next[x]], prev[next[x] := prev[x]];
    forall k | 0 <= k < |r| ensures LinkAt(r, next', prev', k) { RemovedLink(ring, next, prev, i, k); }
  }

  lemma NodeLeft(ring: seq<SnapshotImpl>, next: Pointers, prev: Pointers, i: nat)
    requires 0 < i < |ring| && IsRing(ring, next, prev)
    ensures ring[i] in next && ring[i] in prev && next[ring[i]] in ring && prev[ring[i]] in ring
    ensures var r := ring[..i] + ring[i + 1..];
            (forall j, k :: 0 <= j < k < |r| ==> r[j] != r[k]) && (forall y :: y in r ==> y in ring)
  {
    assert ring[i] in ring && After(i - 1, |ring|) == i;
    assert LinkAt(ring, next, prev, i - 1) && LinkAt(ring, next, prev, i);
  }

  /** The `k`-th link of the ring without its `i`-th node. */
  lemma RemovedLink(ring: seq<SnapshotImpl>, next: Pointers, prev: Pointers, i: nat, k: nat)
    requires 0 < i < |ring| && IsRing(ring, next, prev) && k < |ring| - 1
    ensures ring[i] in next && ring[i] in prev
    ensures var x, r := ring[i], ring[..i] + ring[i + 1..];
            var next', prev' := next[prev[x] := next[x]], prev[next[x] := prev[x]];
            (forall y :: y in r ==> y in next' && y in prev') && LinkAt(r, next', prev', k)
  {
    var n, r, m := |ring|, ring[..i] + ring[i + 1..], if k < i then k else k + 1;
    assert ring[i] in ring && ring[m] in ring && After(i - 1, n) == i;
    assert LinkAt(ring, next, prev, i - 1) && LinkAt(ring, next, prev, i) && LinkAt(ring, next, prev, m);
    if m == i - 1 {
      assert r[After(k, n - 1)] == ring[After(i, n)];
    } else {
      assert After(m, n) != i && r[After(k, n - 1)] == ring[After(m, n)];
      assert ring[m] != ring[i - 1] && ring[After(m, n)] != ring[After(i, n)];
    }
  }

  lemma SameRing(ring: seq<SnapshotImpl>, next: Pointers, prev: Pointers, next': Pointers, prev': Pointers)
    requires IsRing(ring, next, prev)
    requires forall x :: x in ring ==> x in next' && next'[x] == next[x] && x in prev' && prev'[x] == prev[x]
    ensures IsRing(ring, next', prev')
  {
    forall k | 0 <= k < |ring| ensures LinkAt(ring, next', prev', k) { assert LinkAt(ring, next, prev, k); }
  }

  class SnapshotImpl {
    const sequence: nat
    var prev: SnapshotImpl
    var next: SnapshotImpl

    constructor (sequence: nat)
      ensures this.sequence == sequence && prev == next == this
    {
      this.sequence := sequence;
      prev, next := this, this;
    }
  }

  ghost function Nexts(nodes: seq<SnapshotImpl>): Pointers
    reads nodes
  {
    map x | x in nodes :: x.next
  }

  ghost function Prevs(nodes: seq<SnapshotImpl>): Pointers
    reads nodes
  {
    map x | x in nodes :: x.prev
  }

  lemma AsMaps(nodes: seq<SnapshotImpl>)
    ensures forall x :: x in nodes ==>
              && x in Nexts(nodes) && Nexts(nodes)[x] == x.next
              && x in Prevs(nodes) && Prevs(nodes)[x] == x.prev
  {}

  /** The nodes point where the maps say. */
  lemma PointingRing(ring: seq<SnapshotImpl>, next: Pointers, prev: Pointers)
    requires IsRing(ring, next, prev)
    requires forall x :: x in ring ==> x in next && x.next == next[x] && x in prev && x.prev == prev[x]
    ensures IsRing(ring, Nexts(ring), Prevs(ring))
  {
    hide IsRing, Nexts, Prevs;
    AsMaps(ring);
    SameRing(ring, next, prev, Nexts(ring), Prevs(ring));
  }

  ghost predicate Ascending(held: seq<SnapshotImpl>) {
    forall i, j :: 0 <= i < j < |held| ==> held[i].sequence <= held[j].sequence
  }

  lemma OneAway(held: seq<SnapshotImpl>, i: nat)
    requires Ascending(held) && i < |held|
    ensures Ascending(held[..i] + held[i+1..])
    ensures ([held[i]] + held)[..i + 1] == [held[i]] + held[..i] && ([held[i]] + held)[i + 2..] == held[i+1..]
  {}

  lemma OneAtEnd(held: seq<SnapshotImpl>, s: SnapshotImpl)
    requires Ascending(held) && (held != [] ==> held[|held| - 1].sequence <= s.sequence)
    ensures Ascending(held + [s])
  {}

  class SnapshotList {
    const head: SnapshotImpl
    ghost var held: seq<SnapshotImpl>

    ghost function Ring(): seq<SnapshotImpl>
      reads this
    {
      [head] + held
    }

    /** The pointers go around the head and the held snapshots, oldest first. */
    ghost predicate Valid()
      reads this, head, held
    {
      && IsRing(Ring(), Nexts(Ring()), Prevs(Ring()))
      && Ascending(held)
    }

    constructor ()
      ensures Valid() && held == [] && fresh(head)
    {
      head := new SnapshotImpl(0);
      held := [];
      new;
      assert Ring() == [head];
    }

    predicate Empty()
      requires Valid()
      reads this, head, held
      ensures Empty() <==> held == []
    {
      EndsMeet();
      head.next == head
    }

    function Oldest(): (s: SnapshotImpl)
      requires Valid() && !Empty()
      reads this, head, held
      ensures s == held[0] && forall x :: x in held ==> s.sequence <= x.sequence
    {
      EndsMeet();
      head.next
    }

    function Newest(): (s: SnapshotImpl)
      requires Valid() && !Empty()
      reads this, head, held
      ensures s == held[|held| - 1] && forall x :: x in held ==> x.sequence <= s.sequence
    {
      EndsMeet();
      head.prev
    }

    lemma EndsMeet()
      requires Valid()
      ensures head.next == if held == [] then head else held[0]
      ensures head.prev == if held == [] then head else held[|held| - 1]
      ensures head !in held
    {
      var ring := Ring();
      assert LinkAt(ring, Nexts(ring), Prevs(ring), 0) && LinkAt(ring, Nexts(ring), Prevs(ring), |held|);
      forall k | 0 <= k < |held| ensures held[k] != head { assert ring[0] != ring[k + 1]; }
    }

    /** Appends a snapshot; sequence numbers never go back. */
    method New(sequence: nat) returns (s: SnapshotImpl)
      requires Valid() && (held == [] || held[|held| - 1].sequence <= sequence)
      modifies this, head, held
      ensures Valid() && fresh(s) && s.sequence == sequence && held == old(held) + [s]
    {
      hide IsRing, Ascending, Nexts, Prevs;
      EndsMeet();
      ghost var ring, all := Ring(), held;
      AsMaps(ring);
      ghost var nexts, prevs := Nexts(ring), Prevs(ring);
      s := new SnapshotImpl(sequence);
      AppendNode(ring, nexts, prevs, s);
      OneAtEnd(all, s);
      ghost var next', prev' := nexts[s := head][prevs[head] := s], prevs[s := prevs[head]][head := s];
      s.next, s.prev := head, head.prev;
      s.prev.next := s;
      head.prev := s;
      held := all + [s];
      assert Ring() == ring + [s];
      forall x | x in Ring() ensures x.next == next'[x] && x.prev == prev'[x] {
        assert x in ring || x == s;
      }
      PointingRing(Ring(), next', prev');
    }

    /** Unlinks a held snapshot. */
    method Delete(s: SnapshotImpl, ghost i: nat)
      requires Valid() && i < |held| && held[i] == s
      modifies this, head, held
      ensures Valid() && held == old(held)[..i] + old(held)[i+1..]
    {
      hide IsRing, Ascending, Nexts, Prevs;
      ghost var ring, all := Ring(), held;
      AsMaps(ring);
      ghost var nexts, prevs := Nexts(ring), Prevs(ring);
      assert ring[i + 1] == s;
      RemoveNode(ring, nexts, prevs, i + 1);
      OneAway(all, i);
      ghost var next', prev' := nexts[prevs[s] := nexts[s]], prevs[nexts[s] := prevs[s]];
      ghost var r := ring[..i + 1] + ring[i + 2..];
      var before, after := s.prev, s.next;
      assert before == prevs[s] && after == nexts[s];
      before.next := after;
      after.prev := before;
      held := held[..i] + held[i+1..];
      assert Ring() == r;
      PointingRing(r, next', prev');
    }
  }
}
