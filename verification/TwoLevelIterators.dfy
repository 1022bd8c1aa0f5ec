/** An iterator over a sequence of blocks that an index points to. */
module TwoLevelIterators {
  import opened InternalKeys
  import opened Cursors

  /** The entries of the first `n` blocks one after the other. */
  ghost function Concat(index: seq<Entry>, block: Bytes -> seq<Entry>, n: nat): seq<Entry>
    requires n <= |index|
  {
    if n == 0 then [] else Concat(index, block, n - 1) + block(index[n - 1].value)
  }

  ghost function Offset(index: seq<Entry>, block: Bytes -> seq<Entry>, n: nat): nat
    requires n <= |index|
  {
    |Concat(index, block, n)|
  }

  ghost function All(index: seq<Entry>, block: Bytes -> seq<Entry>): seq<Entry> {
    Concat(index, block, |index|)
  }

  /** The key of an index entry is at or after every key of its block and before every key of
      the later blocks. */
  ghost predicate Separates(index: seq<Entry>, block: Bytes -> seq<Entry>) {
    && Sorted(index)
    && (forall i :: 0 <= i < |index| ==> Sorted(block(index[i].value)))
    && (forall i, e :: 0 <= i < |index| && e in block(index[i].value) ==> !Less(index[i].key, e.key))
    && (forall i, j, e :: 0 <= i < j < |index| && e in block(index[j].value) ==> Less(index[i].key, e.key))
  }

  lemma {:induction false} ConcatAt(index: seq<Entry>, block: Bytes -> seq<Entry>, n: nat, i: nat, k: nat)
    requires i < n <= |index| && k < |block(index[i].value)|
    ensures Offset(index, block, i) + k < Offset(index, block, n)
    ensures Concat(index, block, n)[Offset(index, block, i) + k] == block(index[i].value)[k]
  {
    if i < n - 1 { ConcatAt(index, block, n - 1, i, k); }
  }

  /** Every position belongs to one block. */
  lemma {:induction false} BlockOf(index: seq<Entry>, block: Bytes -> seq<Entry>, n: nat, p: nat)
      returns (i: nat, k: nat)
    requires n <= |index| && p < Offset(index, block, n)
    ensures i < n && k < |block(index[i].value)| && p == Offset(index, block, i) + k
    ensures Concat(index, block, n)[p] == block(index[i].value)[k]
  {
    if p < Offset(index, block, n - 1) {
      i, k := BlockOf(index, block, n - 1, p);
    } else {
      i, k := n - 1, p - Offset(index, block, n - 1);
    }
  }

  lemma {:induction false} OffsetsGrow(index: seq<Entry>, block: Bytes -> seq<Entry>, i: nat, j: nat)
    requires i <= j <= |index|
    ensures Offset(index, block, i) <= Offset(index, block, j)
  {
    if i < j { OffsetsGrow(index, block, i, j - 1); }
  }

  lemma ConcatSorted(index: seq<Entry>, block: Bytes -> seq<Entry>)
    requires Separates(index, block)
    ensures Sorted(All(index, block))
  {
    var all := All(index, block);
    forall p, q | 0 <= p < q < |all| ensures Less(all[p].key, all[q].key) {
      var i, k := BlockOf(index, block, |index|, p);
      var j, l := BlockOf(index, block, |index|, q);
      if j < i { OffsetsGrow(index, block, j + 1, i); }
      if i < j {
        var a, b := block(index[i].value)[k], block(index[j].value)[l];
        assert a in block(index[i].value) && b in block(index[j].value);
        assert !Less(index[i].key, a.key) && Less(index[i].key, b.key);
      }
    }
  }

  lemma BeforeBlock(index: seq<Entry>, block: Bytes -> seq<Entry>, target: InternalKey, i: nat, k: nat, p: nat)
    requires Separates(index, block) && SeekPosition(index, target, i) && i < |index|
    requires SeekPosition(block(index[i].value), target, k) && p < |All(index, block)|
             && p < Offset(index, block, i) + k
    ensures Less(All(index, block)[p].key, target)
  {
    var j, l := BlockOf(index, block, |index|, p);
    if i < j { OffsetsGrow(index, block, i + 1, j); }
    if j < i {
      var e := block(index[j].value)[l];
      assert e in block(index[j].value) && !Less(index[j].key, e.key) && Less(index[j].key, target);
    }
  }

  lemma AfterBlock(index: seq<Entry>, block: Bytes -> seq<Entry>, target: InternalKey, i: nat, k: nat, p: nat)
    requires Separates(index, block) && SeekPosition(index, target, i) && i < |index|
    requires SeekPosition(block(index[i].value), target, k) && Offset(index, block, i) + k <= p < |All(index, block)|
    ensures !Less(All(index, block)[p].key, target)
  {
    var j, l := BlockOf(index, block, |index|, p);
    if j < i { OffsetsGrow(index, block, j + 1, i); }
    if i < j {
      var e := block(index[j].value)[l];
      assert e in block(index[j].value) && Less(index[i].key, e.key) && !Less(index[i].key, target);
    }
  }

  /** A seek in the index and then in the block it finds is a seek in the concatenation. */
  lemma SeekInBlock(index: seq<Entry>, block: Bytes -> seq<Entry>, target: InternalKey, i: nat, k: nat)
    requires Separates(index, block) && SeekPosition(index, target, i) && i < |index|
    requires SeekPosition(block(index[i].value), target, k)
    ensures SeekPosition(All(index, block), target, Offset(index, block, i) + k)
  {
    hide Separates, Less, Concat;
    var all := All(index, block);
    InsideBlock(index, block, i, k);
    forall p | 0 <= p < Offset(index, block, i) + k ensures Less(all[p].key, target) {
      BeforeBlock(index, block, target, i, k, p);
    }
    forall p | Offset(index, block, i) + k <= p < |all| ensures !Less(all[p].key, target) {
      AfterBlock(index, block, target, i, k, p);
    }
  }

  lemma InsideBlock(index: seq<Entry>, block: Bytes -> seq<Entry>, i: nat, k: nat)
    requires i < |index| && k <= |block(index[i].value)|
    ensures Offset(index, block, i) + k <= |All(index, block)|
  {
    OffsetsGrow(index, block, i + 1, |index|);
  }

  /** When every index key is before the target, so is every entry. */
  lemma SeekPastIndex(index: seq<Entry>, block: Bytes -> seq<Entry>, target: InternalKey)
    requires Separates(index, block) && SeekPosition(index, target, |index|)
    ensures SeekPosition(All(index, block), target, |All(index, block)|)
  {
    var all := All(index, block);
    forall p | 0 <= p < |all| ensures Less(all[p].key, target) {
      var j, l := BlockOf(index, block, |index|, p);
      var e := block(index[j].value)[l];
      assert e in block(index[j].value) && !Less(index[j].key, e.key) && Less(index[j].key, target);
    }
  }

  lemma NextOffset(index: seq<Entry>, block: Bytes -> seq<Entry>, i: nat)
    requires i < |index|
    ensures Offset(index, block, i + 1) == Offset(index, block, i) + |block(index[i].value)|
  {}

  lemma FirstOffsets(index: seq<Entry>, block: Bytes -> seq<Entry>)
    ensures Offset(index, block, 0) == 0 && (index != [] ==> Offset(index, block, 1) == |block(index[0].value)|)
  {
    assert Concat(index, block, 0) == [];
    if index != [] { assert Concat(index, block, 1) == [] + block(index[0].value); }
  }

  class TwoLevelIterator {
    const index: Cursor
    const block: Bytes -> seq<Entry>
    var data: Cursor?
    var dataHandle: Bytes
    ghost var pos: nat

    constructor (index: Cursor, block: Bytes -> seq<Entry>)
      requires index.pos == |index.entries|
      ensures Inv() && this.index == index && this.block == block && pos == Total() && data == null
    {
      this.index, this.block, data, dataHandle := index, block, null, [];
      pos := |All(index.entries, block)|;
    }

    ghost function Total(): nat
    {
      |All(index.entries, block)|
    }

    /** The data cursor, if there is one, is over the block of the current index entry. */
    ghost predicate Open()
      reads this, index, data
    {
      && index.pos <= |index.entries|
      && (data != null ==> data != index && data.entries == block(dataHandle) && data.pos <= |data.entries|
                           && index.Valid() && index.Value() == dataHandle)
    }

    predicate Valid()
      reads this, data
    {
      data != null && data.Valid()
    }

    ghost predicate Inv()
      reads this, index, data
    {
      && Open()
      && if Valid() then pos == Offset(index.entries, block, index.pos) + data.pos else pos == Total() && data == null
    }

    function Key(): InternalKey
      requires Inv() && Valid()
      reads this, index, data
      ensures pos < Total() && Key() == All(index.entries, block)[pos].key
    {
      ConcatAt(index.entries, block, |index.entries|, index.pos, data.pos);
      data.Key()
    }

    function Value(): Bytes
      requires Inv() && Valid()
      reads this, index, data
      ensures pos < Total() && Value() == All(index.entries, block)[pos].value
    {
      ConcatAt(index.entries, block, |index.entries|, index.pos, data.pos);
      data.Value()
    }

    /** Opens the block of the current index entry, unless it is open already. */
    method InitDataBlock()
      requires index.pos <= |index.entries|
      requires data != null ==> data != index && data.entries == block(dataHandle) && data.pos <= |data.entries|
      modifies this
      ensures Open() && (data != null <==> index.Valid())
      ensures data == null || data == old(data) || fresh(data)
      ensures pos == old(pos)
    {
      if !index.Valid() {
        data := null;
      } else {
        var handle := index.Value();
        if data == null || handle != dataHandle {
          var d := new Cursor(block(handle));
          data, dataHandle := d, handle;
        }
      }
    }

    /** Position `p` is ahead: at the data cursor, or else at the start of the next block. */
    ghost predicate Ahead(p: nat)
      requires Open()
      reads this, index, data
    {
      if Valid() then p == Offset(index.entries, block, index.pos) + data.pos
      else if index.Valid() then p == Offset(index.entries, block, index.pos + 1)
      else p == Total()
    }

    method SkipEmptyDataBlocksForward(ghost p: nat)
      requires Open() && Ahead(p)
      modifies this, index, data
      ensures Inv() && pos == p
      ensures data == null || data == old(data) || fresh(data)
    {
      hide Concat, Less, Sorted, SeekPosition;
      while data == null || !data.Valid()
        invariant Open() && Ahead(p)
        invariant data == null || data == old(data) || fresh(data)
        decreases |index.entries| - index.pos, if Valid() then 0 else 1
      {
        if !index.Valid() {
          data, pos := null, p;
          return;
        }
        index.Next();
        if index.Valid() { NextOffset(index.entries, block, index.pos); }
        InitDataBlock();
        if data != null { data.SeekToFirst(); }
      }
      pos := p;
    }

    /** Position `p` is behind: at the data cursor, or else at the end of the previous block. */
    ghost predicate Behind(p: int)
      requires Open()
      reads this, index, data
    {
      if Valid() then p == Offset(index.entries, block, index.pos) + data.pos
      else if index.Valid() then p == Offset(index.entries, block, index.pos) - 1
      else p == -1
    }

    method SkipEmptyDataBlocksBackward(ghost p: int)
      requires Open() && Behind(p) && p >= -1
      modifies this, index, data
      ensures Inv() && pos == if p >= 0 then p else Total()
      ensures data == null || data == old(data) || fresh(data)
    {
      hide Less, Sorted, SeekPosition;
      while data == null || !data.Valid()
        invariant Open() && Behind(p)
        invariant data == null || data == old(data) || fresh(data)
        decreases BackwardsFrom(|index.entries|, index.pos), if Valid() then 0 else 1
      {
        if !index.Valid() {
          data, pos := null, Total();
          return;
        }
        index.Prev();
        InitDataBlock();
        if data != null { data.SeekToLast(); }
      }
      pos := p;
    }

    method Seek(target: InternalKey)
      requires Inv() && Separates(index.entries, block)
      modifies this, index, data
      ensures Inv() && SeekPosition(All(index.entries, block), target, pos)
      ensures data == null || data == old(data) || fresh(data)
    {
      index.Seek(target);
      InitDataBlock();
      ghost var p := Total();
      if data != null {
        data.Seek(target);
        SeekInBlock(index.entries, block, target, index.pos, data.pos);
        p := Offset(index.entries, block, index.pos) + data.pos;
      } else {
        SeekPastIndex(index.entries, block, target);
      }
      SkipEmptyDataBlocksForward(p);
    }

    method SeekToFirst()
      requires Inv()
      modifies this, index, data
      ensures Inv() && pos == 0
      ensures data == null || data == old(data) || fresh(data)
    {
      index.SeekToFirst();
      InitDataBlock();
      if data != null { data.SeekToFirst(); }
      FirstOffsets(index.entries, block);
      SkipEmptyDataBlocksForward(0);
    }

    method SeekToLast()
      requires Inv()
      modifies this, index, data
      ensures Inv() && pos == LastPosition(Total())
      ensures data == null || data == old(data) || fresh(data)
    {
      index.SeekToLast();
      InitDataBlock();
      if data != null { data.SeekToLast(); }
      SkipEmptyDataBlocksBackward(Total() - 1);
    }

    method Next()
      requires Inv() && Valid()
      modifies this, index, data
      ensures Inv() && pos == old(pos) + 1
      ensures data == null || data == old(data) || fresh(data)
    {
      ghost var p := pos;
      data.Next();
      SkipEmptyDataBlocksForward(p + 1);
    }

    method Prev()
      requires Inv() && Valid()
      modifies this, index, data
      ensures Inv() && pos == if old(pos) == 0 then Total() else old(pos) - 1
      ensures data == null || data == old(data) || fresh(data)
    {
      ghost var p: int := pos;
      data.Prev();
      SkipEmptyDataBlocksBackward(p - 1);
    }
  }
}
