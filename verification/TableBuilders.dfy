/** Building a table: data blocks, and an index entry for each once the next key is known. */
module TableBuilders {
  import opened InternalKeys
  import opened Versions
  import opened Cursors
  import opened TwoLevelIterators
  import opened Tables
  import opened Coding
  import opened FilterBlocks

  const BLOCK_TRAILER_SIZE: nat := 5

  /** How a user comparator shortens keys: `separator(a, b)` and `successor(a)` give a key that
      is physically shorter than `a` and logically larger,
        when there is one; a key between `a` and itself does not exist. */
  datatype Shortener = Shortener(separator: (UserKey, UserKey) -> Option<UserKey>,
                                 successor: UserKey -> Option<UserKey>)

  ghost predicate Shortens(c: Shortener) {
    && (forall a, b :: c.separator(a, b).Some? ==>
       a < c.separator(a, b).value && (a <= b ==> c.separator(a, b).value < b))
    && (forall a :: c.successor(a).Some? ==> a < c.successor(a).value)
  }

  /** A shortened user key gets the earliest position among its versions. */
  function ShortestSeparator(c: Shortener, start: InternalKey, limit: InternalKey): InternalKey {
    var tmp := c.separator(start.user, limit.user);
    if tmp.Some? then SeekKey(tmp.value, MAX_SEQUENCE) else start
  }

  function ShortSuccessor(c: Shortener, key: InternalKey): InternalKey {
    var tmp := c.successor(key.user);
    if tmp.Some? then SeekKey(tmp.value, MAX_SEQUENCE) else key
  }

  lemma SeparatorBetween(c: Shortener, start: InternalKey, limit: InternalKey)
    requires Shortens(c) && Less(start, limit)
    ensures var k := ShortestSeparator(c, start, limit);
            !Less(k, start) && Less(k, limit) && (k == start || start.user < k.user < limit.user)
  {
    var tmp := c.separator(start.user, limit.user);
    assert tmp.Some? ==> start.user < tmp.value < limit.user;
  }

  function EncodeHandle(offset: nat, size: nat): Bytes { Varint(offset) + Varint(size) }

  lemma HandlesDiffer(o: nat, s: nat, o': nat, s': nat)
    requires EncodeHandle(o, s) == EncodeHandle(o', s')
    ensures o == o' && s == s'
  {
    VarintPrefixFree(o, o', Varint(s), Varint(s'));
    VarintPrefixFree(s, s', [], []);
  }

  function BlockIn(file: map<Bytes, seq<Entry>>): Bytes -> seq<Entry> {
    h => if h in file then file[h] else []
  }

  lemma {:induction false} SameBlocks(index: seq<Entry>, f: Bytes -> seq<Entry>, g: Bytes -> seq<Entry>, n: nat)
    requires n <= |index| && forall i :: 0 <= i < n ==> f(index[i].value) == g(index[i].value)
    ensures Concat(index, f, n) == Concat(index, g, n)
  {
    if n > 0 { SameBlocks(index, f, g, n - 1); }
  }

  lemma {:induction false} ConcatPrefix(index: seq<Entry>, x: Entry, block: Bytes -> seq<Entry>, n: nat)
    requires n <= |index|
    ensures Concat(index + [x], block, n) == Concat(index, block, n)
  {
    if n > 0 { ConcatPrefix(index, x, block, n - 1); }
  }

  lemma AllSnoc(index: seq<Entry>, x: Entry, block: Bytes -> seq<Entry>)
    ensures All(index + [x], block) == All(index, block) + block(x.value)
  {
    ConcatPrefix(index, x, block, |index|);
  }

  /** Every block behind the index ends before the entries still to come. */
  ghost predicate IndexBefore(index: seq<Entry>, block: Bytes -> seq<Entry>, later: seq<Entry>) {
    forall i, e :: 0 <= i < |index| && e in later ==>
      Less(index[i].key, e.key) && (HasKey(block(index[i].value), index[i].key) || index[i].key.user < e.key.user)
  }

  /** An entry after one that the index is before: the index is before it too. */
  lemma IndexBeforeNext(index: seq<Entry>, block: Bytes -> seq<Entry>, later: seq<Entry>, e: Entry)
    requires IndexBefore(index, block, later) && Sorted(later + [e])
    requires later != [] || index == []
    ensures IndexBefore(index, block, later + [e])
  {
    if later != [] {
      var l := later[|later|-1];
      assert (later + [e])[|later|-1] == l && (later + [e])[|later|] == e;
      assert l in later && Less(l.key, e.key);
    }
  }

  /** The index entry of a finished block, written when the next key is known. */
  lemma NewSeparator(index: seq<Entry>, block: Bytes -> seq<Entry>, x: Entry, next: Entry)
    requires Separates(index, block) && Sharp(index, block) && IndexBefore(index, block, block(x.value))
    requires var b := block(x.value);
             b != [] && Sorted(b) && !Less(x.key, b[|b|-1].key) && Less(x.key, next.key)
             && (x.key == b[|b|-1].key || b[|b|-1].key.user < x.key.user < next.key.user)
    ensures Separates(index + [x], block) && Sharp(index + [x], block) && IndexBefore(index + [x], block, [next])
  {
    SeparatorAfter(index, block, x);
    SeparatorSharp(index, block, x);
    SeparatorBefore(index, block, x, next);
  }

  lemma NotBeyondLast(b: seq<Entry>, k: InternalKey)
    requires b != [] && Sorted(b) && !Less(k, b[|b|-1].key)
    ensures forall e :: e in b ==> !Less(k, e.key)
  {}

  lemma SortedSnoc(es: seq<Entry>, e: Entry)
    requires Sorted(es) && (es != [] ==> Less(es[|es|-1].key, e.key))
    ensures Sorted(es + [e])
  {
    var r := es + [e];
    forall i, j | 0 <= i < j < |r| ensures Less(r[i].key, r[j].key) {
      if j == |es| && i < |es| - 1 { assert Less(es[i].key, es[|es|-1].key); }
    }
  }

  lemma SeparatorAfter(index: seq<Entry>, block: Bytes -> seq<Entry>, x: Entry)
    requires Separates(index, block) && IndexBefore(index, block, block(x.value))
    requires var b := block(x.value); b != [] && Sorted(b) && !Less(x.key, b[|b|-1].key)
    ensures Separates(index + [x], block)
  {
    var b, r := block(x.value), index + [x];
    NotBeyondLast(b, x.key);
    forall i | 0 <= i < |index| ensures Less(index[i].key, x.key) {
      assert b[|b|-1] in b && Less(index[i].key, b[|b|-1].key);
    }
    SortedSnoc(index, x);
    forall i, e | 0 <= i < |r| && e in block(r[i].value) ensures !Less(r[i].key, e.key) {
      if i < |index| { assert r[i] == index[i]; }
    }
    forall i, j, e | 0 <= i < j < |r| && e in block(r[j].value) ensures Less(r[i].key, e.key) {
      assert r[i] == index[i];
      if j < |index| { assert r[j] == index[j]; }
    }
  }

  lemma SeparatorSharp(index: seq<Entry>, block: Bytes -> seq<Entry>, x: Entry)
    requires Sharp(index, block) && IndexBefore(index, block, block(x.value))
    ensures Sharp(index + [x], block)
  {
    hide HasKey, Less;
    var r := index + [x];
    forall i, j, e | 0 <= i < j < |r| && e in block(r[j].value)
      ensures HasKey(block(r[i].value), r[i].key) || r[i].key.user < e.key.user
    {
      assert r[i] == index[i];
      if j < |index| { assert r[j] == index[j]; }
    }
  }

  lemma SeparatorBefore(index: seq<Entry>, block: Bytes -> seq<Entry>, x: Entry, next: Entry)
    requires IndexBefore(index, block, block(x.value)) && Less(x.key, next.key)
    requires var b := block(x.value);
             b != [] && !Less(x.key, b[|b|-1].key)
             && (x.key == b[|b|-1].key || b[|b|-1].key.user < x.key.user < next.key.user)
    ensures IndexBefore(index + [x], block, [next])
  {
    var b, r := block(x.value), index + [x];
    var last := b[|b|-1];
    assert last in b;
    forall i | 0 <= i < |r|
      ensures Less(r[i].key, next.key) && (HasKey(block(r[i].value), r[i].key) || r[i].key.user < next.key.user)
    {
      if i < |index| {
        assert r[i] == index[i];
        assert Less(index[i].key, last.key)
          && (HasKey(block(index[i].value), index[i].key) || index[i].key.user < last.key.user);
      }
    }
  }

  ghost predicate AgreeOn(index: seq<Entry>, f: Bytes -> seq<Entry>, g: Bytes -> seq<Entry>) {
    forall i :: 0 <= i < |index| ==> f(index[i].value) == g(index[i].value)
  }

  lemma AgreeingBlocks(index: seq<Entry>, f: Bytes -> seq<Entry>, g: Bytes -> seq<Entry>, later: seq<Entry>)
    requires AgreeOn(index, f, g) && Separates(index, f) && Sharp(index, f) && IndexBefore(index, f, later)
    ensures Separates(index, g) && Sharp(index, g) && IndexBefore(index, g, later) && All(index, g) == All(index, f)
  {
    SameBlocks(index, f, g, |index|);
  }

  /** `added` is in order behind the index, then in the finished block that has no index entry
      yet, then in the block being built. */
  ghost predicate Built(added: seq<Entry>, index: seq<Entry>, block: Bytes -> seq<Entry>, pending: seq<Entry>,
                        data: seq<Entry>) {
    && Sorted(added) && added == All(index, block) + (pending + data)
    && Separates(index, block) && Sharp(index, block) && IndexBefore(index, block, pending + data)
    && (index != [] ==> pending + data != [])
  }

  lemma SuffixSorted(front: seq<Entry>, es: seq<Entry>)
    requires Sorted(front + es)
    ensures Sorted(es)
  {
    forall i, j | 0 <= i < j < |es| ensures Less(es[i].key, es[j].key) {
      assert (front + es)[|front| + i] == es[i] && (front + es)[|front| + j] == es[j];
    }
  }

  lemma BuiltAdd(added: seq<Entry>, index: seq<Entry>, block: Bytes -> seq<Entry>, data: seq<Entry>, e: Entry)
    requires Built(added, index, block, [], data) && (added != [] ==> Less(added[|added|-1].key, e.key))
    ensures Built(added + [e], index, block, [], data + [e])
  {
    hide Separates, Sharp, IndexBefore, Less, All;
    assert [] + data == data && [] + (data + [e]) == data + [e];
    SortedSnoc(added, e);
    assert added + [e] == All(index, block) + (data + [e]);
    SuffixSorted(All(index, block), data + [e]);
    IndexBeforeNext(index, block, data, e);
  }

  lemma BuiltIndexed(added: seq<Entry>, index: seq<Entry>, block: Bytes -> seq<Entry>, pending: seq<Entry>, x: Entry,
                     e: Entry)
    requires Built(added, index, block, pending, []) && pending != [] && block(x.value) == pending
    requires Less(added[|added|-1].key, e.key) && !Less(x.key, added[|added|-1].key) && Less(x.key, e.key)
    requires x.key == added[|added|-1].key || added[|added|-1].key.user < x.key.user < e.key.user
    ensures Built(added + [e], index + [x], block, [], [e])
  {
    hide Separates, Sharp, IndexBefore, Less, All;
    assert pending + [] == pending && [] + [e] == [e];
    SuffixSorted(All(index, block), pending);
    NewSeparator(index, block, x, e);
    AllSnoc(index, x, block);
    SortedSnoc(added, e);
  }

  lemma BuiltFlushed(added: seq<Entry>, index: seq<Entry>, f: Bytes -> seq<Entry>, g: Bytes -> seq<Entry>,
                     data: seq<Entry>)
    requires Built(added, index, f, [], data) && AgreeOn(index, f, g)
    ensures Built(added, index, g, data, [])
  {
    hide Separates, Sharp, IndexBefore, Less, All, AgreeOn;
    assert [] + data == data && data + [] == data;
    AgreeingBlocks(index, f, g, data);
  }

  lemma BuiltFinished(added: seq<Entry>, index: seq<Entry>, block: Bytes -> seq<Entry>, pending: seq<Entry>, x: Entry)
    requires Built(added, index, block, pending, []) && pending != [] && block(x.value) == pending
    requires !Less(x.key, added[|added|-1].key)
    ensures Separates(index + [x], block) && Sharp(index + [x], block) && All(index + [x], block) == added
  {
    hide Separates, Sharp, IndexBefore, Less, All;
    assert pending + [] == pending;
    SuffixSorted(All(index, block), pending);
    SeparatorAfter(index, block, x);
    SeparatorSharp(index, block, x);
    AllSnoc(index, x, block);
  }

  lemma BuiltEmpty(added: seq<Entry>, index: seq<Entry>, block: Bytes -> seq<Entry>)
    requires Built(added, index, block, [], [])
    ensures index == [] && Separates(index, block) && Sharp(index, block) && All(index, block) == added
  {}

  ghost predicate Indexed(index: seq<Entry>, file: map<Bytes, seq<Entry>>) {
    forall i :: 0 <= i < |index| ==> index[i].value in file
  }

  lemma IndexStays(index: seq<Entry>, file: map<Bytes, seq<Entry>>, h: Bytes, data: seq<Entry>)
    requires Indexed(index, file) && h !in file
    ensures Indexed(index, file[h := data]) && AgreeOn(index, BlockIn(file), BlockIn(file[h := data]))
  {}

  lemma IndexGrows(index: seq<Entry>, file: map<Bytes, seq<Entry>>, x: Entry)
    requires Indexed(index, file) && x.value in file
    ensures Indexed(index + [x], file)
  {}

  // ----- the keys the filter gets -----

  /** The filter got the user key of every entry of the block under the block's offset. */
  ghost predicate Filtered(es: seq<Entry>, offset: nat, filterKeys: iset<(nat, Bytes)>, userBytes: UserKey -> Bytes) {
    forall e :: e in es ==> (offset, userBytes(e.key.user)) in filterKeys
  }

  ghost function Only(keys: set<(nat, Bytes)>): iset<(nat, Bytes)> { iset k | k in keys }

  lemma FilteredMore(es: seq<Entry>, e: Entry, offset: nat, before: iset<(nat, Bytes)>, after: iset<(nat, Bytes)>,
                     userBytes: UserKey -> Bytes)
    requires Filtered(es, offset, before, userBytes) && before <= after && (offset, userBytes(e.key.user)) in after
    ensures Filtered(es + [e], offset, after, userBytes)
  {}

  lemma NothingFiltered(offset: nat, filterKeys: iset<(nat, Bytes)>, userBytes: UserKey -> Bytes)
    ensures Filtered([], offset, filterKeys, userBytes)
  {}

  /** The handle was written below `offset`, and the keys of its block went to the filter under
      the offset in the handle. */
  ghost predicate InFile(file: map<Bytes, seq<Entry>>, filterKeys: iset<(nat, Bytes)>, userBytes: UserKey -> Bytes,
                         offset: nat, h: Bytes) {
    h in file && exists o: nat, s: nat ::
        h == EncodeHandle(o, s) && o < offset && Filtered(file[h], o, filterKeys, userBytes)
  }

  ghost predicate Written(file: map<Bytes, seq<Entry>>, filterKeys: iset<(nat, Bytes)>, userBytes: UserKey -> Bytes,
                          offset: nat) {
    forall h :: h in file ==> InFile(file, filterKeys, userBytes, offset, h)
  }

  lemma WriteOneBlock(file: map<Bytes, seq<Entry>>, filterKeys: iset<(nat, Bytes)>, userBytes: UserKey -> Bytes,
                      offset: nat, size: nat, data: seq<Entry>)
    requires Written(file, filterKeys, userBytes, offset) && Filtered(data, offset, filterKeys, userBytes)
    ensures EncodeHandle(offset, size) !in file
    ensures Written(file[EncodeHandle(offset, size) := data], filterKeys, userBytes, offset + size + BLOCK_TRAILER_SIZE)
  {
    hide EncodeHandle;
    var h := EncodeHandle(offset, size);
    if h in file {
      assert InFile(file, filterKeys, userBytes, offset, h);
      var o: nat, s: nat :| h == EncodeHandle(o, s) && o < offset;
      HandlesDiffer(o, s, offset, size);
    }
    var file' := file[h := data];
    forall g | g in file' ensures InFile(file', filterKeys, userBytes, offset + size + BLOCK_TRAILER_SIZE, g) {
      if g != h { assert InFile(file, filterKeys, userBytes, offset, g); }
    }
  }

  lemma MoreFilterKeys(file: map<Bytes, seq<Entry>>, before: iset<(nat, Bytes)>, after: iset<(nat, Bytes)>,
                       userBytes: UserKey -> Bytes,
                       offset: nat)
    requires Written(file, before, userBytes, offset) && before <= after
    ensures Written(file, after, userBytes, offset)
  {
    hide EncodeHandle;
    forall h | h in file ensures InFile(file, after, userBytes, offset, h) {
      assert InFile(file, before, userBytes, offset, h);
    }
  }

  lemma NothingBuilt(block: Bytes -> seq<Entry>, filterKeys: iset<(nat, Bytes)>, userBytes: UserKey -> Bytes)
    ensures Built([], [], block, [], []) && Indexed([], map[])
    ensures Filtered([], 0, filterKeys, userBytes) && Written(map[], filterKeys, userBytes, 0)
  {
    assert All([], block) == [];
  }

  class TableBuilder {
    const comparator: Shortener
    const blockSize: nat
    const sizeOf: seq<Entry> -> nat
    const userBytes: UserKey -> Bytes
    const filterBlock: FilterBlockBuilder?
    var dataBlock: seq<Entry>
    var indexBlock: seq<Entry>
    var lastKey: InternalKey
    var numEntries: nat
    var pendingIndexEntry: bool
    var pendingHandle: Bytes
    var offset: nat
    var closed: bool
    var file: map<Bytes, seq<Entry>>
    ghost var added: seq<Entry>

    constructor (comparator: Shortener, blockSize: nat, sizeOf: seq<Entry> -> nat, userBytes: UserKey -> Bytes,
                 policy: Option<Policy>)
      requires Shortens(comparator)
      ensures Valid() && added == [] && this.userBytes == userBytes && fresh(Repr())
      ensures if policy.None? then filterBlock == null else filterBlock != null && filterBlock.policy == policy.value
    {
      hide Built, Shortens, Filtered, Written, Indexed, BlockIn, FilterBlockBuilder.Valid;
      this.comparator, this.blockSize, this.sizeOf, this.userBytes := comparator, blockSize, sizeOf, userBytes;
      dataBlock, indexBlock, lastKey, numEntries := [], [], InternalKey(0.0, 0, TypeDeletion), 0;
      pendingIndexEntry, pendingHandle, offset, closed, file := false, [], 0, false, map[];
      added := [];
      var filter: FilterBlockBuilder? := null;
      if policy.Some? {
        filter := new FilterBlockBuilder(policy.value);
        filter.StartBlock(0);
      }
      filterBlock := filter;
      new;
      NothingBuilt(BlockIn(file), FilterKeys(), userBytes);
    }

    ghost function Repr(): set<object> {
      if filterBlock == null then {this} else {this, filterBlock}
    }

    /** The keys the filter got; without one nothing is ruled out. */
    ghost function FilterKeys(): iset<(nat, Bytes)>
      reads Repr()
    {
      if filterBlock == null then iset k: (nat, Bytes) | k.0 >= 0 else Only(filterBlock.added)
    }

    /** The finished block that has no index entry yet. */
    ghost function Pending(): seq<Entry>
      reads this
    {
      if pendingIndexEntry then BlockIn(file)(pendingHandle) else []
    }

    ghost predicate Valid()
      reads Repr()
    {
      && !closed && Shortens(comparator)
      && numEntries == |added| && (added != [] ==> lastKey == added[|added|-1].key)
      && Built(added, indexBlock, BlockIn(file), Pending(), dataBlock)
      && (pendingIndexEntry ==> dataBlock == [] && pendingHandle in file && Pending() != [])
      && Indexed(indexBlock, file)
      && (filterBlock != null ==> filterBlock.Valid() && filterBlock.offset == offset)
      && Filtered(dataBlock, offset, FilterKeys(), userBytes)
      && Written(file, FilterKeys(), userBytes, offset)
    }

    method Add(key: InternalKey, value: Bytes)
      requires Valid() && (numEntries > 0 ==> Less(lastKey, key))
      modifies Repr()
      ensures Valid() && added == old(added) + [Entry(key, value)]
      ensures filterBlock != null ==> filterBlock.added == old(filterBlock.added) + {(old(offset), userBytes(key.user))}
      ensures indexBlock == old(indexBlock) +
                if old(pendingIndexEntry)
                  then [Entry(ShortestSeparator(comparator, old(lastKey), key), old(pendingHandle))]
                else []
      ensures var block := old(dataBlock) + [Entry(key, value)];
              var size := sizeOf(block);
              if size < blockSize then dataBlock == block && file == old(file) && offset == old(offset)
              else dataBlock == [] && offset == old(offset) + size + BLOCK_TRAILER_SIZE
                   && pendingIndexEntry && file == old(file)[EncodeHandle(old(offset), size) := block]
    {
      hide Built, Shortens, Less, EncodeHandle, Written, Indexed, Filtered, ShortestSeparator, BlockIn,
           FilterBlockBuilder.Valid;
      Append(key, value);
      if sizeOf(dataBlock) >= blockSize { Flush(); }
    }

    /** The index entry of the finished block, now that the next key is known. */
    method IndexLastBlock(e: Entry)
      requires Valid() && pendingIndexEntry && Less(lastKey, e.key)
      modifies `indexBlock, `pendingIndexEntry
      ensures !pendingIndexEntry && Indexed(indexBlock, file)
      ensures indexBlock == old(indexBlock) + [Entry(ShortestSeparator(comparator, lastKey, e.key), pendingHandle)]
      ensures Built(added + [e], indexBlock, BlockIn(file), [], [e])
    {
      hide Built, Shortens, Less, EncodeHandle, Written, Indexed, Filtered, ShortestSeparator, BlockIn, Sorted,
           FilterBlockBuilder.Valid;
      BuiltParts(added, indexBlock, BlockIn(file), Pending(), dataBlock);
      SeparatorBetween(comparator, lastKey, e.key);
      var x := Entry(ShortestSeparator(comparator, lastKey, e.key), pendingHandle);
      BuiltIndexed(added, indexBlock, BlockIn(file), Pending(), x, e);
      IndexGrows(indexBlock, file, x);
      indexBlock := indexBlock + [x];
      pendingIndexEntry := false;
    }

    method AddFilterKey(e: Entry)
      requires Filtered(dataBlock, offset, FilterKeys(), userBytes) && Written(file, FilterKeys(), userBytes, offset)
      requires filterBlock != null ==> filterBlock.Valid() && filterBlock.offset == offset
      modifies if filterBlock == null then {} else {filterBlock}
      ensures Filtered(dataBlock + [e], offset, FilterKeys(), userBytes)
              && Written(file, FilterKeys(), userBytes, offset)
      ensures filterBlock != null ==>
                && filterBlock.Valid() && filterBlock.offset == offset
                && filterBlock.added == old(filterBlock.added) + {(offset, userBytes(e.key.user))}
    {
      hide Written, Filtered, FilterBlockBuilder.Valid;
      ghost var before := FilterKeys();
      if filterBlock != null { filterBlock.AddKey(userBytes(e.key.user)); }
      assert before <= FilterKeys() && (offset, userBytes(e.key.user)) in FilterKeys();
      MoreFilterKeys(file, before, FilterKeys(), userBytes, offset);
      FilteredMore(dataBlock, e, offset, before, FilterKeys(), userBytes);
    }

    method Append(key: InternalKey, value: Bytes)
      requires Valid() && (numEntries > 0 ==> Less(lastKey, key))
      modifies Repr()
      ensures Valid() && added == old(added) + [Entry(key, value)]
      ensures filterBlock != null ==> filterBlock.added == old(filterBlock.added) + {(old(offset), userBytes(key.user))}
      ensures indexBlock == old(indexBlock) +
                if old(pendingIndexEntry)
                  then [Entry(ShortestSeparator(comparator, old(lastKey), key), old(pendingHandle))]
                else []
      ensures dataBlock == old(dataBlock) + [Entry(key, value)] && file == old(file) && offset == old(offset)
    {
      hide Built, Shortens, Less, EncodeHandle, Written, Indexed, Filtered, ShortestSeparator, BlockIn, Sorted,
           FilterBlockBuilder.Valid;
      var e := Entry(key, value);
      BuiltParts(added, indexBlock, BlockIn(file), Pending(), dataBlock);
      if pendingIndexEntry {
        IndexLastBlock(e);
        assert dataBlock + [e] == [e];
      } else {
        BuiltAdd(added, indexBlock, BlockIn(file), dataBlock, e);
      }
      AddFilterKey(e);
      lastKey := key;
      numEntries := numEntries + 1;
      dataBlock := dataBlock + [e];
      added := added + [e];
    }

    method Flush()
      requires Valid()
      modifies Repr()
      ensures Valid() && added == old(added) && dataBlock == [] && indexBlock == old(indexBlock)
      ensures filterBlock != null ==> filterBlock.added == old(filterBlock.added)
      ensures old(dataBlock) == [] ==>
              file == old(file) && offset == old(offset) && pendingIndexEntry == old(pendingIndexEntry)
      ensures old(dataBlock) != [] ==>
                && pendingIndexEntry && pendingHandle == EncodeHandle(old(offset), sizeOf(old(dataBlock)))
                && pendingHandle !in old(file) && file == old(file)[pendingHandle := old(dataBlock)]
                && offset == old(offset) + sizeOf(old(dataBlock)) + BLOCK_TRAILER_SIZE
    {
      hide Built, Shortens, Less, EncodeHandle, Written, Indexed, Filtered, AgreeOn, FilterBlockBuilder.Valid;
      if dataBlock == [] { return; }
      WriteOneBlock(file, FilterKeys(), userBytes, offset, sizeOf(dataBlock), dataBlock);
      var handle := EncodeHandle(offset, sizeOf(dataBlock));
      ghost var before := BlockIn(file);
      IndexStays(indexBlock, file, handle, dataBlock);
      file := file[handle := dataBlock];
      BuiltFlushed(added, indexBlock, before, BlockIn(file), dataBlock);
      offset := offset + sizeOf(dataBlock) + BLOCK_TRAILER_SIZE;
      dataBlock, pendingHandle, pendingIndexEntry := [], handle, true;
      if filterBlock != null { filterBlock.StartBlock(offset); }
      assert Filtered(dataBlock, offset, FilterKeys(), userBytes) by {
        NothingFiltered(offset, FilterKeys(), userBytes);
      }
    }

    /** The table is complete: the index separates its blocks, what lies behind the index is
        exactly what was added, and the filter block has every key under the offset of its block. */
    ghost predicate Complete(filter: Bytes)
      reads Repr()
    {
      && Separates(indexBlock, BlockIn(file)) && Sharp(indexBlock, BlockIn(file))
         && All(indexBlock, BlockIn(file)) == added
      && (forall i :: 0 <= i < |indexBlock| ==> InFile(file, FilterKeys(), userBytes, offset, indexBlock[i].value))
      && (filterBlock != null ==>
            && Placed(filterBlock.added, filterBlock.slots, [])
            && filter == BlockContents(filterBlock.policy, filterBlock.slots))
    }

    method Finish() returns (filter: Bytes)
      requires Valid()
      modifies Repr()
      ensures closed && added == old(added) && Complete(filter)
    {
      hide Built, Less, EncodeHandle, InFile, Separates, Sharp, All, Filtered, ShortSuccessor, Placed, BlockContents,
           FilterBlockBuilder.Valid;
      Flush();
      closed := true;
      BuiltParts(added, indexBlock, BlockIn(file), Pending(), dataBlock);
      filter := [];
      if filterBlock != null { filter := filterBlock.Finish(); }
      if pendingIndexEntry {
        var x := Entry(ShortSuccessor(comparator, lastKey), pendingHandle);
        SuccessorAfter(comparator, lastKey);
        BuiltFinished(added, indexBlock, BlockIn(file), Pending(), x);
        indexBlock := indexBlock + [x];
        pendingIndexEntry := false;
      } else {
        BuiltEmpty(added, indexBlock, BlockIn(file));
      }
    }
  }

  lemma SuccessorAfter(c: Shortener, key: InternalKey)
    requires Shortens(c)
    ensures !Less(ShortSuccessor(c, key), key)
  {}

  lemma BuiltParts(added: seq<Entry>, index: seq<Entry>, block: Bytes -> seq<Entry>, pending: seq<Entry>,
                   data: seq<Entry>)
    requires Built(added, index, block, pending, data)
    ensures Sorted(added) && (pending != [] ==> added != [])
  {}

  // ----- reading the table back -----

  lemma HandleRoundTrip(offset: nat, size: nat)
    requires offset < W64
    ensures DecodeHandle(EncodeHandle(offset, size)).Some? ==>
            DecodeHandle(EncodeHandle(offset, size)).value.0 == offset
  {
    Varint64RoundTrip(offset, Varint(size));
  }

  /** The filters of the slots match every key of every block. */
  lemma FilterCovers(p: Policy, slots: seq<seq<Bytes>>, added: set<(nat, Bytes)>, index: seq<Entry>,
                     file: map<Bytes, seq<Entry>>,
                     userBytes: UserKey -> Bytes, offset: nat)
    requires Sound(p) && Placed(added, slots, []) && offset <= W64
    requires forall i :: 0 <= i < |index| ==> InFile(file, Only(added), userBytes, offset, index[i].value)
    ensures Covers(p, slots, index, BlockIn(file), userBytes)
  {
    hide Sound, Placed, EncodeHandle, DecodeHandle, MayMatch;
    forall i, e | 0 <= i < |index| && e in BlockIn(file)(index[i].value) && DecodeHandle(index[i].value).Some?
      ensures MayMatch(p, slots, DecodeHandle(index[i].value).value.0, userBytes(e.key.user))
    {
      var h := index[i].value;
      assert InFile(file, Only(added), userBytes, offset, h);
      var o: nat, s: nat :| h == EncodeHandle(o, s) && o < offset && Filtered(file[h], o, Only(added), userBytes);
      HandleRoundTrip(o, s);
      NeverRulesOut(p, slots, added, o, userBytes(e.key.user));
    }
  }

  /** A lookup in the table that was built delivers what was added, through its own filter. */
  method GetBack(t: TableBuilder, filter: Bytes, u: UserKey, s: nat) returns (hit: Option<Entry>)
    requires t.Complete(filter) && t.offset <= W64
    requires t.filterBlock != null ==>
             Sound(t.filterBlock.policy) && |Filters(t.filterBlock.policy, t.filterBlock.slots)| < W32
    ensures Delivers(t.added, u, s, hit)
  {
    hide Separates, Sharp, All, InFile, Sound, Placed, BlockContents, Filters, Covers, Delivers,
         FilterBlockReader.Shape;
    var reader: FilterBlockReader? := null;
    if t.filterBlock != null {
      reader := new FilterBlockReader(t.filterBlock.policy, filter);
      FilterCovers(t.filterBlock.policy, t.filterBlock.slots, t.filterBlock.added, t.indexBlock, t.file, t.userBytes,
        t.offset);
      assert IsFilterBlock(reader.policy, reader.contents, t.filterBlock.slots);
    }
    hit := InternalGet(t.indexBlock, BlockIn(t.file), reader, t.userBytes, u, s);
  }
}
