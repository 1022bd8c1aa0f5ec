/** Iterating a block: decoding forward from restart points, searching among them. */
module BlockIterators {
  import opened InternalKeys
  import opened Cursors
  import opened Coding
  import opened Blocks

  /** The entries of a block, how they are laid out, and where its restart points are. */
  ghost predicate GoodBlock(c: Comparator, data: Bytes, restarts: nat, numRestarts: nat,
                            es: seq<KeyValue>, shared: seq<nat>, offs: seq<nat>, marks: seq<nat>)
  {
    && IsBlock(data, es, shared, offs, marks) && restarts == offs[|es|] && numRestarts == |marks| && Increasing(c, es)
  }

  lemma GoodShape(c: Comparator, data: Bytes, restarts: nat, numRestarts: nat,
                  es: seq<KeyValue>, shared: seq<nat>, offs: seq<nat>, marks: seq<nat>)
    requires GoodBlock(c, data, restarts, numRestarts, es, shared, offs, marks)
    ensures |offs| == |es| + 1 && offs[0] == 0 && offs[|es|] == restarts <= |data| && |shared| == |es|
    ensures |marks| == numRestarts > 0 && marks[0] == 0
    ensures forall k :: 0 <= k < |marks| ==>
            marks[k] <= |es| && (k >= 1 ==> marks[k] < |es|) && (marks[k] < |es| ==> shared[marks[k]] == 0)
    ensures forall k, l :: 0 <= k < l < |marks| ==> marks[k] < marks[l]
  {
    hide EntryAt, FixedAll, Points, Fixed;
  }

  /** Offsets order like the entries they belong to. */
  lemma GoodOffsets(c: Comparator, data: Bytes, restarts: nat, numRestarts: nat,
                    es: seq<KeyValue>, shared: seq<nat>, offs: seq<nat>, marks: seq<nat>)
    requires GoodBlock(c, data, restarts, numRestarts, es, shared, offs, marks)
    ensures |offs| == |es| + 1
    ensures forall i, j :: 0 <= i < j <= |es| ==> offs[i] < offs[j]
  {
    forall i, j | 0 <= i < j <= |es| ensures offs[i] < offs[j] { OffsetsGrow(data, es, shared, offs, i, j); }
  }

  class BlockIter {
    const comparator: Comparator
    const data: Bytes
    const restarts: nat
    const numRestarts: nat
    var current: nat
    var restartIndex: nat
    var key: Bytes
    var value: Bytes
    var nextOffset: nat
    var corrupt: bool
    ghost const es: seq<KeyValue>
    ghost const shared: seq<nat>
    ghost const offs: seq<nat>
    ghost const marks: seq<nat>
    ghost var pos: nat

    constructor (comparator: Comparator, data: Bytes, restarts: nat, numRestarts: nat,
                 ghost es: seq<KeyValue>, ghost shared: seq<nat>, ghost offs: seq<nat>, ghost marks: seq<nat>)
      requires numRestarts > 0 && restarts + 4 * numRestarts + 4 == |data|
      ensures Inv() && !Valid() && pos == |es| && this.es == es
      ensures this.comparator == comparator && this.data == data && this.restarts == restarts
              && this.numRestarts == numRestarts
      ensures this.shared == shared && this.offs == offs && this.marks == marks
    {
      this.comparator, this.data, this.restarts, this.numRestarts := comparator, data, restarts, numRestarts;
      this.es, this.shared, this.offs, this.marks := es, shared, offs, marks;
      current, restartIndex, key, value, nextOffset, corrupt := restarts, numRestarts, [], [], 0, false;
      pos := |es|;
      new;
      hide GoodBlock;
    }

    /** The block is one that a builder finished. */
    ghost predicate Good() {
      GoodBlock(comparator, data, restarts, numRestarts, es, shared, offs, marks)
    }

    ghost predicate Shape() {
      numRestarts > 0 && restarts + 4 * numRestarts + 4 == |data|
    }

    predicate Valid()
      reads this
    {
      current < restarts
    }

    /** The cursor is at entry `p`; the restart point at `restartIndex` is at or before it and
        the next one at or after it. */
    ghost predicate At(p: nat)
      reads this
    {
      && |offs| == |es| + 1 && |marks| == numRestarts && p <= |es| && !corrupt
      && if p < |es| then
           && current == offs[p] && key == es[p].key && value == es[p].value && nextOffset == offs[p + 1]
           && restartIndex < numRestarts && marks[restartIndex] <= p
           && (restartIndex + 1 < numRestarts ==> marks[restartIndex + 1] >= p)
         else current == restarts && restartIndex == numRestarts
    }

    ghost predicate Inv()
      reads this
    {
      && Shape() && (Valid() ==> restartIndex < numRestarts && nextOffset <= restarts)
      && (Good() ==> At(pos))
    }

    /** The cursor can decode entry `j` next. */
    ghost predicate ReadyAt(j: nat)
      reads this
    {
      && Good() && !corrupt
      && |offs| == |es| + 1 && |shared| == |es| && |marks| == numRestarts && j <= |es| && nextOffset == offs[j]
      && restartIndex < numRestarts && marks[restartIndex] <= j
      && (j < |es| ==> shared[j] <= |key| && shared[j] <= |es[j].key| && key[..shared[j]] == es[j].key[..shared[j]])
    }

    method GetRestartPoint(index: nat) returns (offset: nat)
      requires Shape() && index < numRestarts
      ensures Good() ==> index < |marks| && |offs| == |es| + 1 && marks[index] <= |es| && offset == offs[marks[index]]
    {
      hide GoodBlock;
      if Good() { PointOf(comparator, data, restarts, numRestarts, es, shared, offs, marks, index); }
      offset := Unfixed(data[restarts + 4 * index..restarts + 4 * index + 4]);
    }

    method SeekToRestartPoint(index: nat)
      requires Shape() && index < numRestarts
      modifies `key, `restartIndex, `nextOffset, `value
      ensures restartIndex == index
      ensures Good() && !corrupt ==> index < |marks| && ReadyAt(marks[index])
    {
      hide GoodBlock;
      key, value, restartIndex := [], [], index;
      nextOffset := GetRestartPoint(index);
      if Good() { GoodShape(comparator, data, restarts, numRestarts, es, shared, offs, marks); }
    }

    method CorruptionError()
      modifies `current, `restartIndex, `corrupt, `key, `value
      ensures current == restarts && restartIndex == numRestarts && corrupt
    {
      current, restartIndex, corrupt, key, value := restarts, numRestarts, true, [], [];
    }

    /** Decodes the entry at `nextOffset`. */
    method ParseNextKey(ghost j: nat) returns (ok: bool)
      requires Shape() && restartIndex < numRestarts
      modifies this
      ensures ok <==> Valid()
      ensures ok ==> restartIndex < numRestarts && old(nextOffset) < nextOffset <= restarts
      ensures pos == j && (old(ReadyAt(j)) ==> At(j) && (ok <==> j < |es|))
    {
      hide GoodBlock, Header;
      pos := j;
      ghost var ready := ReadyAt(j);
      if ready { Decodable(comparator, data, restarts, numRestarts, es, shared, offs, marks, j); }
      current := nextOffset;
      if current >= restarts {
        current, restartIndex := restarts, numRestarts;
        return false;
      }
      var p := DecodeEntry(data[current..restarts]);
      if p.None? || |key| < p.value.0.shared {
        CorruptionError();
        return false;
      }
      var h, rest := p.value.0, p.value.1;
      key := key[..h.shared] + rest[..h.nonShared];
      value := rest[h.nonShared..h.nonShared + h.valueLength];
      nextOffset := restarts - |rest| + h.nonShared + h.valueLength;
      if ready { assert key == es[j].key by { WholeKey(es[j].key, shared[j]); } }
      Advance(j, ready);
      ok := true;
    }

    /** Moves the restart index up to the last restart point before the current entry. */
    method Advance(ghost j: nat, ghost ready: bool)
      requires Shape() && restartIndex < numRestarts
      requires ready ==>
               && Good() && |offs| == |es| + 1 && |marks| == numRestarts
               && j < |es| && current == offs[j] && marks[restartIndex] <= j
      modifies `restartIndex
      ensures restartIndex < numRestarts
      ensures ready ==> marks[restartIndex] <= j && (restartIndex + 1 < numRestarts ==> marks[restartIndex + 1] >= j)
    {
      hide GoodBlock;
      if ready { GoodOffsets(comparator, data, restarts, numRestarts, es, shared, offs, marks); }
      while restartIndex + 1 < numRestarts
        invariant restartIndex < numRestarts && (ready ==> marks[restartIndex] <= j)
        decreases numRestarts - restartIndex
      {
        var next := GetRestartPoint(restartIndex + 1);
        if next >= current { break; }
        restartIndex := restartIndex + 1;
      }
    }

    /** After entry `pos` the next one can be decoded. */
    lemma ReadyNext()
      requires Inv() && Valid()
      ensures Good() ==> pos < |es| && ReadyAt(pos + 1)
    {
      hide GoodBlock;
      if Good() {
        GoodShape(comparator, data, restarts, numRestarts, es, shared, offs, marks);
        SharedWithPrevious(comparator, data, restarts, numRestarts, es, shared, offs, marks, pos);
      }
    }

    method Next()
      requires Inv() && Valid()
      modifies this
      ensures Inv() && (Good() ==> pos == old(pos) + 1)
      ensures Valid() ==> old(nextOffset) < nextOffset
    {
      hide GoodBlock;
      ReadyNext();
      var ok := ParseNextKey(pos + 1);
    }

    method Prev()
      requires Inv() && Valid()
      modifies this
      ensures Inv() && (Good() ==> old(pos) < |es| && pos == PrevPosition(|es|, old(pos)))
    {
      hide GoodBlock;
      ghost var p := pos;
      if Good() {
        GoodShape(comparator, data, restarts, numRestarts, es, shared, offs, marks);
        GoodOffsets(comparator, data, restarts, numRestarts, es, shared, offs, marks);
      }
      var original := current;
      var point := GetRestartPoint(restartIndex);
      while point >= original
        invariant restartIndex < numRestarts && pos == p && current == original
        invariant Good() ==>
                  && At(p) && p < |es| && |marks| == numRestarts
                  && marks[restartIndex] <= |es| && point == offs[marks[restartIndex]]
        decreases restartIndex
      {
        if restartIndex == 0 {
          current, restartIndex, pos := restarts, numRestarts, |es|;
          return;
        }
        restartIndex := restartIndex - 1;
        point := GetRestartPoint(restartIndex);
      }
      ghost var m := if restartIndex < |marks| then marks[restartIndex] else 0;
      SeekToRestartPoint(restartIndex);
      ScanTo(m, original, p);
    }

    /** Decodes forward from entry `j` until the entry that ends at or after `stop`. */
    method ScanTo(ghost j0: nat, stop: nat, ghost p: nat)
      requires Shape() && restartIndex < numRestarts
      requires ReadyAt(j0) ==> (j0 < p <= |es| || (j0 == p && es == [])) && stop == offs[p]
      modifies this
      ensures Shape() && (Valid() ==> restartIndex < numRestarts && nextOffset <= restarts)
      ensures old(ReadyAt(j0)) ==> pos == (if p == 0 then 0 else p - 1) && At(pos)
    {
      hide GoodBlock;
      ghost var ready := ReadyAt(j0);
      if ready { GoodOffsets(comparator, data, restarts, numRestarts, es, shared, offs, marks); }
      ghost var j: nat := j0;
      var ok := ParseNextKey(j);
      while ok && nextOffset < stop
        invariant ok <==> Valid()
        invariant ok ==> restartIndex < numRestarts && nextOffset <= restarts
        invariant ready ==> (ok <==> j < |es|)
        invariant ready ==> Good() && At(j) && pos == j && (j < p <= |es| || (j == p && es == [])) && stop == offs[p]
        decreases if ok then restarts - nextOffset else -1
      {
        if ready {
          assert Inv();
          ReadyNext();
        }
        j := j + 1;
        ok := ParseNextKey(j);
      }
    }

    /** The last restart point whose key is before the target, among those between `left0` and
        `right0`. */
    method FindRestart(target: Bytes, left0: nat, right0: nat) returns (left: nat, bad: bool)
      requires Shape() && left0 <= right0 < numRestarts
      requires Good() ==> Below(target, left0) && Above(target, right0)
      modifies this
      ensures unchanged(`current, `restartIndex, `key, `value, `nextOffset, `pos) || bad
      ensures bad ==> !Good() && corrupt && !Valid()
      ensures !bad ==> left < numRestarts && corrupt == old(corrupt)
      ensures Good() ==> !bad && Below(target, left)
    {
      hide GoodBlock, Header;
      var right := right0;
      left, bad := left0, false;
      if Good() { GoodShape(comparator, data, restarts, numRestarts, es, shared, offs, marks); }
      while left < right
        invariant left <= right < numRestarts && unchanged(this)
        invariant Good() ==> Below(target, left) && Above(target, right)
      {
        var mid := (left + right + 1) / 2;
        var offset := GetRestartPoint(mid);
        if Good() { Decodable(comparator, data, restarts, numRestarts, es, shared, offs, marks, marks[mid]); }
        var p := DecodeEntry(if offset <= restarts then data[offset..restarts] else []);
        if p.None? || p.value.0.shared != 0 {
          CorruptionError();
          bad := true;
          return;
        }
        var midKey := p.value.1[..p.value.0.nonShared];
        assert Good() ==> midKey == es[marks[mid]].key;
        if Good() { MidStep(target, mid); }
        if comparator(midKey) < comparator(target) {
          left := mid;
        } else {
          right := mid - 1;
        }
      }
    }

    /** The key at restart point `k` is before the target, unless it is the first one. */
    ghost predicate Below(target: Bytes, k: nat) {
      k < |marks| && (k > 0 ==> marks[k] < |es| && comparator(es[marks[k]].key) < comparator(target))
    }

    /** The keys at restart points after `k` are not before the target. */
    ghost predicate Above(target: Bytes, k: nat) {
      forall l :: k < l < |marks| ==> marks[l] < |es| && comparator(es[marks[l]].key) >= comparator(target)
    }

    lemma MidStep(target: Bytes, mid: nat)
      requires Good() && 0 < mid < |marks|
      ensures marks[mid] < |es|
      ensures if comparator(es[marks[mid]].key) < comparator(target) then Below(target, mid) else Above(target, mid - 1)
    {
      GoodShape(comparator, data, restarts, numRestarts, es, shared, offs, marks);
      GoodIncreasing(comparator, data, restarts, numRestarts, es, shared, offs, marks);
      hide GoodBlock;
    }

    /** The first entry at or after the target; from a valid position the search starts there. */
    method Seek(target: Bytes)
      requires Inv()
      modifies this
      ensures Inv()
      ensures Good() ==> pos <= |es| && (forall i :: 0 <= i < pos ==> comparator(es[i].key) < comparator(target))
      ensures Good() ==> forall i :: pos <= i < |es| ==> comparator(es[i].key) >= comparator(target)
    {
      hide GoodBlock;
      var left, right := 0, numRestarts - 1;
      var behind := false;
      if Good() {
        GoodShape(comparator, data, restarts, numRestarts, es, shared, offs, marks);
        GoodIncreasing(comparator, data, restarts, numRestarts, es, shared, offs, marks);
      }
      if Valid() {
        if comparator(key) < comparator(target) {
          left, behind := restartIndex, true;
        } else if comparator(key) > comparator(target) {
          right := restartIndex;
        } else {
          return;
        }
      }
      var bad;
      left, bad := FindRestart(target, left, right);
      if bad { return; }
      ghost var j := pos + 1;
      if left == restartIndex && behind {
        ReadyNext();
      } else {
        SeekToRestartPoint(left);
        j := if left < |marks| then marks[left] else 0;
      }
      LinearSearch(target, j);
    }

    /** Decodes forward from entry `j0` until a key is at or after the target. */
    method LinearSearch(target: Bytes, ghost j0: nat)
      requires Shape() && restartIndex < numRestarts
      requires Good() ==> ReadyAt(j0) && forall i :: 0 <= i < j0 && i < |es| ==>
               comparator(es[i].key) < comparator(target)
      modifies this
      ensures Inv()
      ensures Good() ==> pos <= |es| && (forall i :: 0 <= i < pos ==> comparator(es[i].key) < comparator(target))
      ensures Good() ==> forall i :: pos <= i < |es| ==> comparator(es[i].key) >= comparator(target)
    {
      hide GoodBlock;
      if Good() { GoodIncreasing(comparator, data, restarts, numRestarts, es, shared, offs, marks); }
      ghost var j: nat := j0;
      var ok := ParseNextKey(j);
      while ok && comparator(key) < comparator(target)
        invariant ok <==> Valid()
        invariant ok ==> restartIndex < numRestarts && nextOffset <= restarts
        invariant Good() ==> (ok <==> j < |es|) && At(j) && pos == j
        invariant Good() ==> forall i :: 0 <= i < j && i < |es| ==> comparator(es[i].key) < comparator(target)
        decreases if ok then restarts - nextOffset else -1
      {
        ReadyNext();
        j := j + 1;
        ok := ParseNextKey(j);
      }
    }

    method SeekToFirst()
      requires Inv()
      modifies this
      ensures Inv() && (Good() ==> pos == 0)
    {
      hide GoodBlock;
      if Good() { GoodShape(comparator, data, restarts, numRestarts, es, shared, offs, marks); }
      SeekToRestartPoint(0);
      var ok := ParseNextKey(0);
    }

    method SeekToLast()
      requires Inv()
      modifies this
      ensures Inv() && (Good() ==> pos == LastPosition(|es|))
    {
      hide GoodBlock;
      if Good() { GoodShape(comparator, data, restarts, numRestarts, es, shared, offs, marks); }
      SeekToRestartPoint(numRestarts - 1);
      ghost var m := if numRestarts == |marks| then marks[numRestarts - 1] else 0;
      ScanTo(m, restarts, |es|);
    }
  }

  lemma GoodIncreasing(c: Comparator, data: Bytes, restarts: nat, numRestarts: nat,
                       es: seq<KeyValue>, shared: seq<nat>, offs: seq<nat>, marks: seq<nat>)
    requires GoodBlock(c, data, restarts, numRestarts, es, shared, offs, marks)
    ensures forall i, j :: 0 <= i < j < |es| ==> c(es[i].key) < c(es[j].key)
  {
    hide IsBlock;
  }

  lemma SharedWithPrevious(c: Comparator, data: Bytes, restarts: nat, numRestarts: nat,
                           es: seq<KeyValue>, shared: seq<nat>, offs: seq<nat>, marks: seq<nat>, p: nat)
    requires GoodBlock(c, data, restarts, numRestarts, es, shared, offs, marks) && p < |es|
    ensures |shared| == |es|
    ensures p + 1 < |es| ==>
              shared[p + 1] <= |es[p].key| && shared[p + 1] <= |es[p + 1].key|
                && es[p].key[..shared[p + 1]] == es[p + 1].key[..shared[p + 1]]
  {
    hide FixedAll, Points, Fixed, EntryAt, Marked;
  }

  lemma WholeKey(key: Bytes, n: nat)
    requires n <= |key|
    ensures key[..n] + key[n..] == key
  {}

  lemma PointOf(c: Comparator, data: Bytes, restarts: nat, numRestarts: nat,
                es: seq<KeyValue>, shared: seq<nat>, offs: seq<nat>, marks: seq<nat>, k: nat)
    requires GoodBlock(c, data, restarts, numRestarts, es, shared, offs, marks) && k < numRestarts
    ensures restarts + 4 * k + 4 <= |data| && k < |marks| && |offs| == |es| + 1 && marks[k] <= |es|
    ensures Unfixed(data[restarts + 4 * k..restarts + 4 * k + 4]) == offs[marks[k]]
  {
    PointAt(data, es, shared, offs, marks, k);
  }

  lemma Decodable(c: Comparator, data: Bytes, restarts: nat, numRestarts: nat,
                  es: seq<KeyValue>, shared: seq<nat>, offs: seq<nat>, marks: seq<nat>, j: nat)
    requires GoodBlock(c, data, restarts, numRestarts, es, shared, offs, marks) && j <= |es|
    ensures |offs| == |es| + 1 && |shared| == |es| && restarts <= |data| && (j == |es| ==> offs[j] == restarts)
    ensures j < |es| ==>
              && offs[j] < offs[j + 1] <= restarts && shared[j] <= |es[j].key|
              && var h := Header(data[offs[j]..restarts]);
                 && h.Some? && h.value.0 == EntryHeader(shared[j], |es[j].key| - shared[j], |es[j].value|)
                 && h.value.1[..h.value.0.nonShared] == es[j].key[shared[j]..]
                 && h.value.1[h.value.0.nonShared..h.value.0.nonShared + h.value.0.valueLength] == es[j].value
                 && restarts - |h.value.1| + h.value.0.nonShared + h.value.0.valueLength == offs[j + 1]
  {
    hide FixedAll, Points, Fixed, Header, EntryAt;
    SharesBounds(es, shared);
    if j < |es| { EntryParts(data, es, shared, offs, j); }
  }

  /** Iterating a finished block gives back the entries that were added to it. */
  method ReadBlock(c: Comparator, data: Bytes, ghost es: seq<KeyValue>, ghost shared: seq<nat>, ghost offs: seq<nat>,
                   ghost marks: seq<nat>)
    returns (r: Option<seq<KeyValue>>)
    ensures IsBlock(data, es, shared, offs, marks) && Increasing(c, es) ==> r == Some(es)
  {
    hide IsBlock, Increasing;
    var place := Open(data);
    if place.None? { return None; }
    var it := new BlockIter(c, data, place.value.0, place.value.1, es, shared, offs, marks);
    ghost var good := IsBlock(data, es, shared, offs, marks) && Increasing(c, es);
    assert good ==> it.Good();
    if good {
      GoodShape(c, data, it.restarts, it.numRestarts, es, shared, offs, marks);
      GoodOffsets(c, data, it.restarts, it.numRestarts, es, shared, offs, marks);
    }
    it.SeekToFirst();
    var all: seq<KeyValue> := [];
    while it.Valid()
      invariant it.Inv() && fresh(it)
      invariant good ==> it.pos <= |es| && all == es[..it.pos]
      decreases if it.Valid() then it.restarts - it.nextOffset else -1
    {
      assert good ==> it.pos < |es|;
      assert good ==> es[..it.pos + 1] == es[..it.pos] + [es[it.pos]];
      all := all + [KeyValue(it.key, it.value)];
      it.Next();
    }
    assert good ==> it.pos == |es| && es[..|es|] == es;
    r := if it.corrupt then None else Some(all);
  }
}
