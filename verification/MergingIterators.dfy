/** Merging several sorted runs behind one cursor. */
module MergingIterators {
  import opened InternalKeys
  import opened Cursors

  /** `all` is the sorted union of the runs, and no entry is in two of them. */
  ghost predicate IsUnion(all: seq<Entry>, runs: seq<seq<Entry>>) {
    && Sorted(all)
    && (forall i :: 0 <= i < |runs| ==> Sorted(runs[i]))
    && (forall i, e :: 0 <= i < |runs| && e in runs[i] ==> e in all)
    && (forall e :: e in all ==> exists i :: 0 <= i < |runs| && e in runs[i])
    && (forall i, j, e :: 0 <= i < j < |runs| && e in runs[i] ==> e !in runs[j])
  }

  /** `e` is at one of the positions `lo` to `hi - 1`. */
  ghost predicate Among(all: seq<Entry>, lo: nat, hi: nat, e: Entry) {
    exists q :: lo <= q < hi && q < |all| && all[q] == e
  }

  /** Position `c` of `run` is its first entry at or after position `p` of the union. */
  ghost predicate FirstFrom(all: seq<Entry>, p: nat, run: seq<Entry>, c: nat) {
    && c <= |run|
    && (forall i :: 0 <= i < c ==> Among(all, 0, p, run[i]))
    && (forall i :: c <= i < |run| ==> Among(all, p, |all|, run[i]))
  }

  /** Position `c` of `run` is its last entry before position `p` of the union; invalid if none. */
  ghost predicate LastBefore(all: seq<Entry>, p: nat, run: seq<Entry>, c: nat) {
    && c <= |run|
    && if c == |run| then forall i :: 0 <= i < |run| ==> Among(all, p, |all|, run[i])
       else (forall i :: 0 <= i <= c ==> Among(all, 0, p, run[i]))
            && (forall i :: c < i < |run| ==> Among(all, p, |all|, run[i]))
  }

  lemma AmongOrder(all: seq<Entry>, p: nat, e: Entry)
    requires Sorted(all) && e in all && p <= |all|
    ensures Among(all, 0, p, e) <==> !Among(all, p, |all|, e)
    ensures p < |all| ==> (Among(all, 0, p, e) <==> Less(e.key, all[p].key))
  {
    var q :| 0 <= q < |all| && all[q] == e;
    forall x | 0 <= x < |all| && x != q
      ensures all[x] != e { assert Less(all[if x < q then x else q].key, all[if x < q then q else x].key); }
    if p < |all| {
      if q < p { assert Less(all[q].key, all[p].key); }
      if p < q { assert Less(all[p].key, all[q].key); }
    }
  }

  /** A seek for `k` leaves a run at its first entry from where a seek in the union lands. */
  lemma SeekIsFirstFrom(all: seq<Entry>, run: seq<Entry>, k: InternalKey, p: nat, c: nat)
    requires Sorted(all) && forall e :: e in run ==> e in all
    requires SeekPosition(all, k, p) && SeekPosition(run, k, c)
    ensures FirstFrom(all, p, run, c)
  {
    forall i | 0 <= i < |run| ensures if i < c then Among(all, 0, p, run[i]) else Among(all, p, |all|, run[i]) {
      assert run[i] in all;
      var q :| 0 <= q < |all| && all[q] == run[i];
    }
  }

  /** Stepping from position `p` to `p + 1`: only the run that holds `all[p]` moves. */
  lemma StepForward(all: seq<Entry>, p: nat, run: seq<Entry>, c: nat)
    requires Sorted(all) && Sorted(run) && p < |all| && FirstFrom(all, p, run, c)
    ensures all[p] !in run ==> FirstFrom(all, p + 1, run, c)
    ensures c < |run| && run[c] == all[p] ==> FirstFrom(all, p + 1, run, c + 1)
  {
    forall i | c <= i < |run| && run[i] != all[p] ensures Among(all, p + 1, |all|, run[i]) {
      assert Among(all, p, |all|, run[i]);
    }
    forall i | 0 <= i < c ensures Among(all, 0, p + 1, run[i]) { assert Among(all, 0, p, run[i]); }
    if c < |run| && run[c] == all[p] {
      assert Among(all, 0, p + 1, run[c]);
      forall i | c < i < |run| ensures run[i] != all[p] { assert Less(run[c].key, run[i].key); }
    }
  }

  lemma StepBackward(all: seq<Entry>, p: nat, run: seq<Entry>, c: nat)
    requires Sorted(all) && Sorted(run) && p < |all| && LastBefore(all, p + 1, run, c)
    ensures all[p] !in run ==> LastBefore(all, p, run, c)
    ensures c < |run| && run[c] == all[p] ==> LastBefore(all, p, run, PrevPosition(|run|, c))
  {
    forall i | 0 <= i < |run| ensures Among(all, p + 1, |all|, run[i]) ==> Among(all, p, |all|, run[i]) {}
    forall i | 0 <= i < |run| && Among(all, 0, p + 1, run[i]) && run[i] != all[p] ensures Among(all, 0, p, run[i]) {}
    if c < |run| && run[c] == all[p] {
      assert Among(all, p, |all|, run[c]);
      forall i | 0 <= i < c ensures run[i] != all[p] { assert Less(run[i].key, run[c].key); }
    }
  }

  /** The head of the run that holds `all[p]` is `all[p]`, and no other head is smaller. */
  lemma HeadFrom(all: seq<Entry>, p: nat, run: seq<Entry>, c: nat)
    requires Sorted(all) && Sorted(run) && FirstFrom(all, p, run, c)
    ensures p == |all| ==> c == |run|
    ensures p < |all| && c < |run| ==> run[c] == all[p] || Less(all[p].key, run[c].key)
    ensures p < |all| && all[p] in run ==> c < |run| && run[c] == all[p]
  {
    if p < |all| && all[p] in run {
      AmongOrder(all, p, all[p]);
      var i :| 0 <= i < |run| && run[i] == all[p];
      if c < i { assert Less(run[c].key, run[i].key); }
    }
    if c < |run| {
      assert Among(all, p, |all|, run[c]);
      var q :| p <= q < |all| && all[q] == run[c];
      if p < q { assert Less(all[p].key, all[q].key); }
    }
  }

  lemma HeadBefore(all: seq<Entry>, p: nat, run: seq<Entry>, c: nat)
    requires Sorted(all) && Sorted(run) && p <= |all| && LastBefore(all, p, run, c)
    ensures p == 0 ==> c == |run|
    ensures p > 0 && c < |run| ==> run[c] == all[p-1] || Less(run[c].key, all[p-1].key)
    ensures p > 0 && all[p-1] in run ==> c < |run| && run[c] == all[p-1]
  {
    if c < |run| {
      assert Among(all, 0, p, run[c]);
      var q :| 0 <= q < p && all[q] == run[c];
      if q < p - 1 { assert Less(all[q].key, all[p-1].key); }
    }
    if p > 0 && all[p-1] in run {
      var i :| 0 <= i < |run| && run[i] == all[p-1];
      AmongOrder(all, p, all[p-1]);
      assert Among(all, 0, p, all[p-1]);
      if c < |run| && i < c { assert Less(run[i].key, run[c].key); }
    }
  }

  class MergingIterator {
    const children: seq<Cursor>
    ghost const all: seq<Entry>
    var current: Option<nat>
    var forward: bool
    ghost var pos: nat

    ghost function Runs(): seq<seq<Entry>> {
      seq(|children|, i requires 0 <= i < |children| => children[i].entries)
    }

    ghost predicate Shape() {
      && IsUnion(all, Runs())
      && forall i, j :: 0 <= i < j < |children| ==> children[i] != children[j]
    }

    /** In forward (reverse) mode every child is at its first entry from (last entry up to) the
        current one; the current child is at the current entry. */
    ghost predicate Inv()
      reads this, children
    {
      && Shape()
      && pos <= |all|
      && (current.Some? <==> pos < |all|)
      && (current.Some? ==> current.value < |children| && children[current.value].Valid()
                            && children[current.value].entries[children[current.value].pos] == all[pos])
      && (pos < |all| ==> forall i :: 0 <= i < |children| ==>
            if forward then FirstFrom(all, pos, children[i].entries, children[i].pos)
            else LastBefore(all, pos + 1, children[i].entries, children[i].pos))
    }

    constructor (children: seq<Cursor>, ghost all: seq<Entry>)
      requires IsUnion(all, seq(|children|, i requires 0 <= i < |children| => children[i].entries))
      requires forall i, j :: 0 <= i < j < |children| ==> children[i] != children[j]
      ensures this.children == children && this.all == all
      ensures Inv() && pos == |all|
    {
      this.children, this.all := children, all;
      current, forward, pos := None, true, |all|;
    }

    predicate Valid()
      reads this
    {
      current.Some?
    }

    function Current(): Entry
      requires Inv() && Valid()
      reads this, children
      ensures Current() == all[pos]
    {
      children[current.value].entries[children[current.value].pos]
    }

    function Key(): InternalKey
      requires Inv() && Valid()
      reads this, children
      ensures pos < |all| && Key() == all[pos].key
    {
      Current().key
    }

    function Value(): Bytes
      requires Inv() && Valid()
      reads this, children
      ensures pos < |all| && Value() == all[pos].value
    {
      Current().value
    }

    /** What is seen from outside: a position in the sorted union. */
    lemma Outside()
      requires Inv()
      ensures Sorted(all) && pos <= |all| && (Valid() <==> pos < |all|)
    {}

    ghost predicate AllFirstFrom(p: nat)
      reads children
    {
      forall i :: 0 <= i < |children| ==> FirstFrom(all, p, children[i].entries, children[i].pos)
    }

    ghost predicate AllLastBefore(p: nat)
      reads children
    {
      forall i :: 0 <= i < |children| ==> LastBefore(all, p, children[i].entries, children[i].pos)
    }

    lemma RunOf(i: nat)
      requires Shape() && i < |children|
      ensures Sorted(children[i].entries) && forall e :: e in children[i].entries ==> e in all
      ensures Sorted(all)
      ensures forall j, e :: 0 <= j < |children| && j != i && e in children[i].entries ==> e !in children[j].entries
    {
      assert Runs()[i] == children[i].entries;
      forall j, e | 0 <= j < |children| && j != i && e in children[i].entries ensures e !in children[j].entries {
        assert Runs()[j] == children[j].entries;
      }
    }

    lemma HolderOf(e: Entry) returns (i: nat)
      requires Shape() && e in all
      ensures i < |children| && e in children[i].entries
    {
      i :| 0 <= i < |Runs()| && e in Runs()[i];
    }

    /** Makes the child with the smallest key current. */
    method FindSmallest(ghost p: nat)
      requires Shape() && p <= |all| && AllFirstFrom(p)
      modifies this
      ensures Inv() && pos == p && forward
    {
      var smallest: Option<nat> := None;
      for i := 0 to |children|
        invariant smallest.Some? ==> smallest.value < i && children[smallest.value].Valid()
        invariant forall j :: 0 <= j < i && children[j].Valid() ==>
                    smallest.Some? && !Less(children[j].Key(), children[smallest.value].Key())
      {
        if children[i].Valid() {
          if smallest.None? || Less(children[i].Key(), children[smallest.value].Key()) { smallest := Some(i); }
        }
      }
      if p < |all| {
        ghost var d := HolderOf(all[p]);
        RunOf(d);
        HeadFrom(all, p, children[d].entries, children[d].pos);
      }
      if smallest.Some? {
        RunOf(smallest.value);
        HeadFrom(all, p, children[smallest.value].entries, children[smallest.value].pos);
      }
      current, forward, pos := smallest, true, p;
    }

    /** Makes the child with the largest key current; positions before the first are invalid. */
    method FindLargest(ghost p: nat)
      requires Shape() && p <= |all| && AllLastBefore(p)
      modifies this
      ensures Inv() && pos == (if p == 0 then |all| else p - 1) && !forward
    {
      var largest: Option<nat> := None;
      var i := |children|;
      while i > 0
        invariant 0 <= i <= |children|
        invariant largest.Some? ==> i <= largest.value < |children| && children[largest.value].Valid()
        invariant forall j :: i <= j < |children| && children[j].Valid() ==>
                    largest.Some? && !Less(children[largest.value].Key(), children[j].Key())
      {
        i := i - 1;
        if children[i].Valid() {
          if largest.None? || Less(children[largest.value].Key(), children[i].Key()) { largest := Some(i); }
        }
      }
      if p > 0 {
        ghost var d := HolderOf(all[p-1]);
        RunOf(d);
        HeadBefore(all, p, children[d].entries, children[d].pos);
      }
      if largest.Some? {
        RunOf(largest.value);
        HeadBefore(all, p, children[largest.value].entries, children[largest.value].pos);
      }
      current, forward, pos := largest, false, if p == 0 then |all| else p - 1;
    }

    method SeekToFirst()
      requires Inv()
      modifies this, children
      ensures Inv() && pos == 0
    {
      for i := 0 to |children|
        invariant forall j :: 0 <= j < i ==> children[j].pos == 0
      {
        children[i].SeekToFirst();
      }
      forall i | 0 <= i < |children| ensures FirstFrom(all, 0, children[i].entries, children[i].pos) {
        RunOf(i);
        Everywhere(all, children[i].entries);
      }
      FindSmallest(0);
    }

    method SeekToLast()
      requires Inv()
      modifies this, children
      ensures Inv() && pos == LastPosition(|all|)
    {
      for i := 0 to |children|
        invariant forall j :: 0 <= j < i ==> children[j].pos == LastPosition(|children[j].entries|)
      {
        children[i].SeekToLast();
      }
      forall i | 0 <= i < |children| ensures LastBefore(all, |all|, children[i].entries, children[i].pos) {
        RunOf(i);
        Everywhere(all, children[i].entries);
      }
      FindLargest(|all|);
    }

    method Seek(target: InternalKey)
      requires Inv()
      modifies this, children
      ensures Inv() && SeekPosition(all, target, pos)
    {
      for i := 0 to |children|
        invariant forall j :: 0 <= j < i ==> SeekPosition(children[j].entries, target, children[j].pos)
      {
        RunOf(i);
        children[i].Seek(target);
      }
      ghost var p := SeekExists(all, target);
      forall i | 0 <= i < |children| ensures FirstFrom(all, p, children[i].entries, children[i].pos) {
        RunOf(i);
        SeekIsFirstFrom(all, children[i].entries, target, p, children[i].pos);
      }
      FindSmallest(p);
    }

    method Next()
      requires Inv() && Valid()
      modifies this, children
      ensures Inv() && pos == old(pos) + 1
    {
      hide IsUnion, FirstFrom, LastBefore, SeekPosition, Sorted;
      var cur := current.value;
      if !forward {
        SwitchToForward();
      }
      children[cur].Next();
      forall i | 0 <= i < |children| ensures FirstFrom(all, pos + 1, children[i].entries, children[i].pos) {
        RunOf(i);
        RunOf(cur);
        StepForward(all, pos, children[i].entries, if i == cur then children[i].pos - 1 else children[i].pos);
      }
      FindSmallest(pos + 1);
    }

    lemma NotInOther(i: nat, j: nat)
      requires Shape() && i < |children| && j < |children| && i != j && pos < |all|
      requires children[j].Valid() && children[j].entries[children[j].pos] == all[pos]
      ensures all[pos] !in children[i].entries
    {
      RunOf(j);
      assert children[j].entries[children[j].pos] in children[j].entries;
    }

    lemma OtherHead(i: nat, j: nat, c: nat)
      requires Shape() && i < |children| && j < |children| && i != j && pos < |all|
      requires children[j].Valid() && children[j].entries[children[j].pos] == all[pos]
      requires FirstFrom(all, pos, children[i].entries, c) && c < |children[i].entries|
      ensures Less(all[pos].key, children[i].entries[c].key)
    {
      RunOf(i);
      NotInOther(i, j);
      HeadFrom(all, pos, children[i].entries, c);
    }

    /** Positions the children that are not current at their first entry after the current one. */
    method SwitchToForward()
      requires Inv() && Valid() && !forward
      modifies this, children
      ensures Inv() && Valid() && forward && pos == old(pos) && current == old(current)
    {
      hide IsUnion, FirstFrom, LastBefore, SeekPosition, Sorted;
      var key := children[current.value].Key();
      for i := 0 to |children|
        invariant current == old(current) && pos == old(pos)
        invariant children[current.value].pos == old(children[current.value].pos)
        invariant forall j :: 0 <= j < i && j != current.value ==>
                  FirstFrom(all, pos, children[j].entries, children[j].pos)
      {
        RunOf(i);
        if i != current.value {
          children[i].Seek(key);
          SeekAround(all, pos, children[i].entries, children[i].pos);
          if children[i].Valid() && !Less(children[i].Key(), key) && !Less(key, children[i].Key()) {
            // Only when two children hold the same key.
            ghost var c := children[i].pos;
            children[i].Next();
            OtherHead(i, current.value, c);
            assert false;
          }
        }
      }
      RunOf(current.value);
      CurrentIsFirst(all, pos, children[current.value].entries, children[current.value].pos);
      forward := true;
    }

    method Prev()
      requires Inv() && Valid()
      modifies this, children
      ensures Inv() && pos == PrevPosition(|all|, old(pos))
    {
      hide IsUnion, FirstFrom, LastBefore, SeekPosition, Sorted;
      var cur := current.value;
      if forward {
        SwitchToReverse();
      }
      children[cur].Prev();
      forall i | 0 <= i < |children| ensures LastBefore(all, pos, children[i].entries, children[i].pos) {
        RunOf(i);
        RunOf(cur);
        StepBackward(all, pos, children[i].entries, if i == cur then old(children[cur].pos) else children[i].pos);
      }
      FindLargest(pos);
    }

    /** Positions the children that are not current at their last entry before the current one. */
    method SwitchToReverse()
      requires Inv() && Valid() && forward
      modifies this, children
      ensures Inv() && Valid() && !forward && pos == old(pos) && current == old(current)
      ensures children[current.value].pos == old(children[current.value].pos)
    {
      hide IsUnion, FirstFrom, LastBefore, SeekPosition, Sorted;
      var key := children[current.value].Key();
      for i := 0 to |children|
        invariant current == old(current) && pos == old(pos)
        invariant children[current.value].pos == old(children[current.value].pos)
        invariant forall j :: 0 <= j < i && j != current.value ==>
                  LastBefore(all, pos + 1, children[j].entries, children[j].pos)
      {
        RunOf(i);
        if i != current.value {
          children[i].Seek(key);
          NotInOther(i, current.value);
          SeekAround(all, pos, children[i].entries, children[i].pos);
          if children[i].Valid() { children[i].Prev(); } else { children[i].SeekToLast(); }
        }
      }
      RunOf(current.value);
      CurrentIsLast(all, pos, children[current.value].entries, children[current.value].pos);
      forward := false;
    }
  }

  /** Reads a merging iterator from the first entry to the last. */
  method ReadAll(iter: MergingIterator) returns (es: seq<Entry>)
    requires iter.Inv()
    modifies iter, iter.children
    ensures es == iter.all
  {
    iter.SeekToFirst();
    es := [];
    while iter.Valid()
      invariant iter.Inv() && iter.pos <= |iter.all| && es == iter.all[..iter.pos]
      decreases |iter.all| - iter.pos
    {
      es := es + [iter.Current()];
      iter.Next();
    }
  }

  lemma SeekExists(all: seq<Entry>, k: InternalKey) returns (p: nat)
    requires Sorted(all)
    ensures SeekPosition(all, k, p)
  {
    p := 0;
    while p < |all| && Less(all[p].key, k)
      invariant p <= |all| && forall i :: 0 <= i < p ==> Less(all[i].key, k)
    {
      p := p + 1;
    }
  }

  lemma Everywhere(all: seq<Entry>, run: seq<Entry>)
    requires forall e :: e in run ==> e in all
    ensures forall i :: 0 <= i < |run| ==> Among(all, 0, |all|, run[i])
  {
    forall i | 0 <= i < |run| ensures Among(all, 0, |all|, run[i]) { assert run[i] in all; }
  }

  /** Seeking the current key in another run. */
  lemma SeekAround(all: seq<Entry>, p: nat, run: seq<Entry>, c: nat)
    requires Sorted(all) && Sorted(run) && p < |all| && forall e :: e in run ==> e in all
    requires SeekPosition(run, all[p].key, c)
    ensures FirstFrom(all, p, run, c)
    ensures all[p] !in run ==> LastBefore(all, p + 1, run, if c < |run| then PrevPosition(|run|, c)
            else LastPosition(|run|))
  {
    KeySeek(all, p);
    SeekIsFirstFrom(all, run, all[p].key, p, c);
    StepForward(all, p, run, c);
    if all[p] !in run { FirstToLast(all, p + 1, run, c); }
  }

  lemma KeySeek(all: seq<Entry>, p: nat)
    requires Sorted(all) && p < |all|
    ensures SeekPosition(all, all[p].key, p)
  {}

  lemma CurrentIsFirst(all: seq<Entry>, p: nat, run: seq<Entry>, c: nat)
    requires Sorted(all) && Sorted(run) && p < |all| && (forall e :: e in run ==> e in all) && c < |run|
             && run[c] == all[p]
    ensures FirstFrom(all, p, run, c)
  {
    forall i | 0 <= i < |run| ensures if i < c then Among(all, 0, p, run[i]) else Among(all, p, |all|, run[i]) {
      AmongOrder(all, p, run[i]);
      if i < c { assert Less(run[i].key, run[c].key); }
      if c < i { assert Less(run[c].key, run[i].key); }
    }
  }

  lemma CurrentIsLast(all: seq<Entry>, p: nat, run: seq<Entry>, c: nat)
    requires Sorted(all) && Sorted(run) && p < |all| && (forall e :: e in run ==> e in all) && c < |run|
             && run[c] == all[p]
    ensures LastBefore(all, p + 1, run, c)
  {
    CurrentIsFirst(all, p, run, c);
    StepForward(all, p, run, c);
  }

  lemma FirstToLast(all: seq<Entry>, p: nat, run: seq<Entry>, c: nat)
    requires FirstFrom(all, p, run, c)
    ensures LastBefore(all, p, run, if c < |run| then PrevPosition(|run|, c) else LastPosition(|run|))
  {}
}
