/** Tables: blocks behind an index with shortened separators, and lookups that probe one block. */
module Tables {
  import opened InternalKeys
  import opened Versions
  import opened Cursors
  import opened TwoLevelIterators
  import opened Coding
  import opened FilterBlocks

  /** A shortened index key: the last key of the block itself, or one whose user key lies
      strictly between that block's and those of later blocks. */
  ghost predicate Sharp(index: seq<Entry>, block: Bytes -> seq<Entry>) {
    forall i, j, e :: 0 <= i < j < |index| && e in block(index[j].value) ==>
      HasKey(block(index[i].value), index[i].key) || index[i].key.user < e.key.user
  }

  ghost predicate HasKey(es: seq<Entry>, k: InternalKey) {
    exists e :: e in es && e.key == k
  }

  /** The offset and the size in a handle; more may follow them. */
  function DecodeHandle(h: Bytes): Option<(nat, nat)> {
    var offset := Varint64(h);
    if offset.None? then None else
    var size := Varint64(offset.value.1);
    if size.None? then None else Some((offset.value.0, size.value.0))
  }

  /** The filters match every key of a block under the offset in its handle. */
  ghost predicate Covers(p: Policy, slots: seq<seq<Bytes>>, index: seq<Entry>, block: Bytes -> seq<Entry>,
                         userBytes: UserKey -> Bytes) {
    forall i, e :: 0 <= i < |index| && e in block(index[i].value) && DecodeHandle(index[i].value).Some? ==>
      MayMatch(p, slots, DecodeHandle(index[i].value).value.0, userBytes(e.key.user))
  }

  ghost predicate NoFalseNegatives(index: seq<Entry>, block: Bytes -> seq<Entry>, filter: FilterBlockReader?,
                                   userBytes: UserKey -> Bytes) {
    filter != null ==>
      && filter.Shape()
      && exists slots ::
          IsFilterBlock(filter.policy, filter.contents, slots) && Covers(filter.policy, slots, index, block, userBytes)
  }

  lemma MemberOfBlock(index: seq<Entry>, block: Bytes -> seq<Entry>, e: Entry) returns (j: nat)
    requires e in All(index, block)
    ensures j < |index| && e in block(index[j].value)
  {
    var p :| 0 <= p < |All(index, block)| && All(index, block)[p] == e;
    var k;
    j, k := BlockOf(index, block, |index|, p);
  }

  /** A version that a lookup may see lies in the probed block or makes that block hold a key of
      the same user key at or after the seek key. */
  lemma OnlyProbedBlock(index: seq<Entry>, block: Bytes -> seq<Entry>, u: UserKey, s: nat, i: nat, x: Entry)
    requires Separates(index, block) && Sharp(index, block) && SeekPosition(index, SeekKey(u, s), i) && i < |index|
    requires x in All(index, block) && Candidate(x, u, s)
    ensures exists e :: e in block(index[i].value) && e.key.user == u && !Less(e.key, SeekKey(u, s))
  {
    var j := MemberOfBlock(index, block, x);
    assert !Less(x.key, SeekKey(u, s));
    assert !Less(index[j].key, x.key);
    if j > i {
      assert Less(index[i].key, x.key) && !Less(index[i].key, SeekKey(u, s));
      assert HasKey(block(index[i].value), index[i].key);
    }
  }

  /** One lookup in a table: the index points to the one block to probe, unless the filter rules
      it out. The filter works on the bytes of user keys. */
  method InternalGet(index: seq<Entry>, block: Bytes -> seq<Entry>, filter: FilterBlockReader?,
                     userBytes: UserKey -> Bytes,
                     u: UserKey, s: nat)
    returns (hit: Option<Entry>)
    requires Separates(index, block) && Sharp(index, block) && NoFalseNegatives(index, block, filter, userBytes)
    ensures Delivers(All(index, block), u, s, hit)
  {
    hide Separates, Sharp, Covers, Delivers, SeekPosition, Less, MayMatch, IsFilterBlock, DecodeHandle;
    SeparatesSorted(index, block);
    var iiter := new Cursor(index);
    iiter.Seek(SeekKey(u, s));
    hit := None;
    if iiter.Valid() {
      var handle := DecodeHandle(iiter.Value());
      var mayMatch := true;
      if filter != null && handle.Some? {
        mayMatch := filter.KeyMayMatch(handle.value.0, userBytes(u));
      }
      if !mayMatch {
        ghost var slots :| IsFilterBlock(filter.policy, filter.contents, slots)
          && Covers(filter.policy, slots, index, block, userBytes);
        FilteredOut(index, block, filter.policy, slots, userBytes, u, s, iiter.pos);
      } else {
        var biter := new Cursor(block(iiter.Value()));
        biter.Seek(SeekKey(u, s));
        if biter.Valid() {
          hit := Some(biter.entries[biter.pos]);
        }
        Probed(index, block, u, s, iiter.pos, biter.pos);
      }
    } else {
      PastIndex(index, block, u, s, iiter.pos);
    }
  }

  lemma SeparatesSorted(index: seq<Entry>, block: Bytes -> seq<Entry>)
    requires Separates(index, block)
    ensures Sorted(index) && forall i :: 0 <= i < |index| ==> Sorted(block(index[i].value))
  {}

  lemma FilteredOut(index: seq<Entry>, block: Bytes -> seq<Entry>, p: Policy, slots: seq<seq<Bytes>>,
                    userBytes: UserKey -> Bytes,
                    u: UserKey, s: nat, i: nat)
    requires Separates(index, block) && Sharp(index, block) && Covers(p, slots, index, block, userBytes)
    requires SeekPosition(index, SeekKey(u, s), i) && i < |index|
    requires DecodeHandle(index[i].value).Some?
             && !MayMatch(p, slots, DecodeHandle(index[i].value).value.0, userBytes(u))
    ensures Delivers(All(index, block), u, s, None)
  {
    hide Separates, Sharp, SeekPosition, DecodeHandle, MayMatch;
    forall x | x in All(index, block) ensures !Candidate(x, u, s) {
      if Candidate(x, u, s) { OnlyProbedBlock(index, block, u, s, i, x); }
    }
  }

  lemma Probed(index: seq<Entry>, block: Bytes -> seq<Entry>, u: UserKey, s: nat, i: nat, k: nat)
    requires Separates(index, block) && Sharp(index, block)
    requires SeekPosition(index, SeekKey(u, s), i) && i < |index|
             && SeekPosition(block(index[i].value), SeekKey(u, s), k)
    ensures Delivers(All(index, block), u, s, if k < |block(index[i].value)| then Some(block(index[i].value)[k])
            else None)
  {
    var all, here := All(index, block), block(index[i].value);
    if k < |here| {
      hide Separates, Sharp, Delivers;
      ConcatSorted(index, block);
      SeekInBlock(index, block, SeekKey(u, s), i, k);
      ConcatAt(index, block, |index|, i, k);
      FirstAtOrAfter(all, Offset(index, block, i) + k, u, s);
    } else {
      hide Separates, Sharp, Less;
      forall x | x in all ensures !Candidate(x, u, s) {
        if Candidate(x, u, s) { OnlyProbedBlock(index, block, u, s, i, x); }
      }
    }
  }

  lemma PastIndex(index: seq<Entry>, block: Bytes -> seq<Entry>, u: UserKey, s: nat, i: nat)
    requires Separates(index, block) && SeekPosition(index, SeekKey(u, s), i) && i == |index|
    ensures Delivers(All(index, block), u, s, None)
  {
    SeekPastIndex(index, block, SeekKey(u, s));
    forall x | x in All(index, block) ensures !Candidate(x, u, s) {
      var p :| 0 <= p < |All(index, block)| && All(index, block)[p] == x;
    }
  }

  // ----- where a key would be -----

  /** The blocks lie one after the other, before the metaindex block. */
  ghost predicate Located(index: seq<Entry>, offsetOf: Bytes -> nat, metaindexOffset: nat) {
    && (forall i, j :: 0 <= i < j < |index| ==> offsetOf(index[i].value) < offsetOf(index[j].value))
    && forall i :: 0 <= i < |index| ==> offsetOf(index[i].value) < metaindexOffset
  }

  /** The blocks below the answer hold only smaller keys, those above it only keys from `key` on. */
  method ApproximateOffsetOf(index: seq<Entry>, block: Bytes -> seq<Entry>, offsetOf: Bytes -> nat,
                             metaindexOffset: nat, key: InternalKey)
      returns (r: nat)
    requires Separates(index, block) && Located(index, offsetOf, metaindexOffset)
    ensures r == metaindexOffset || exists i :: 0 <= i < |index| && r == offsetOf(index[i].value)
    ensures forall i, e :: 0 <= i < |index| && e in block(index[i].value) ==>
              (offsetOf(index[i].value) < r ==> Less(e.key, key))
                && (r < offsetOf(index[i].value) ==> !Less(e.key, key))
  {
    SeparatesSorted(index, block);
    var iiter := new Cursor(index);
    iiter.Seek(key);
    r := if iiter.Valid() then offsetOf(iiter.Value()) else metaindexOffset;
    forall i, e | 0 <= i < |index| && e in block(index[i].value)
      ensures (offsetOf(index[i].value) < r ==> Less(e.key, key))
              && (r < offsetOf(index[i].value) ==> !Less(e.key, key))
    {
      BesideSeek(index, block, key, iiter.pos, i, e);
    }
  }

  lemma BesideSeek(index: seq<Entry>, block: Bytes -> seq<Entry>, key: InternalKey, p: nat, i: nat, e: Entry)
    requires Separates(index, block) && SeekPosition(index, key, p) && i < |index| && e in block(index[i].value)
    ensures i < p ==> Less(e.key, key)
    ensures p < i ==> !Less(e.key, key)
  {
    assert !Less(index[i].key, e.key);
    if p < i { assert Less(index[p].key, e.key) && !Less(index[p].key, key); }
  }
}
