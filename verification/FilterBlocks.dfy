/** The filter block: one filter for every 2 KB of table offsets. */
module FilterBlocks {
  import opened InternalKeys
  import opened Coding
  import opened Blocks

  const FILTER_BASE_LG: Byte := 11
  const FILTER_BASE: nat := 2048

  /** A filter policy; a key that a filter was made from always matches. */
  datatype Policy = Policy(create: seq<Bytes> -> Bytes, mayMatch: (Bytes, Bytes) -> bool)

  ghost predicate Sound(p: Policy) {
    forall keys: seq<Bytes>, k: Bytes {:trigger k in keys, p.create(keys)} :: k in keys ==>
      p.mayMatch(k, p.create(keys))
  }

  // ----- the block -----

  /** The filters of the slots one after the other; an empty slot has an empty filter. */
  function Filters(p: Policy, slots: seq<seq<Bytes>>): Bytes {
    if slots == [] then [] else Filters(p, slots[..|slots|-1]) + SlotFilter(p, slots[|slots|-1])
  }

  function SlotFilter(p: Policy, keys: seq<Bytes>): Bytes {
    if keys == [] then [] else p.create(keys)
  }

  /** Where the filter of each slot begins. */
  function Offsets(p: Policy, slots: seq<seq<Bytes>>): (r: seq<nat>)
    ensures |r| == |slots|
  {
    if slots == [] then [] else Offsets(p, slots[..|slots|-1]) + [|Filters(p, slots[..|slots|-1])|]
  }

  lemma {:induction false} SlotAt(p: Policy, slots: seq<seq<Bytes>>, i: nat)
    requires i < |slots|
    ensures var start := Offsets(p, slots)[i];
            var limit := if i + 1 < |slots| then Offsets(p, slots)[i + 1] else |Filters(p, slots)|;
            start <= limit <= |Filters(p, slots)| && Filters(p, slots)[start..limit] == SlotFilter(p, slots[i])
  {
    var init := slots[..|slots|-1];
    if i < |slots| - 1 {
      SlotAt(p, init, i);
      var start := Offsets(p, init)[i];
      var limit := if i + 1 < |init| then Offsets(p, init)[i + 1] else |Filters(p, init)|;
      assert Filters(p, slots)[start..limit] == Filters(p, init)[start..limit];
    }
  }

  lemma OneSlotMore(p: Policy, slots: seq<seq<Bytes>>, keys: seq<Bytes>)
    ensures Filters(p, slots + [keys]) == Filters(p, slots) + SlotFilter(p, keys)
    ensures Offsets(p, slots + [keys]) == Offsets(p, slots) + [|Filters(p, slots)|]
  {
    assert (slots + [keys])[..|slots|] == slots;
  }

  /** Keys one after the other, with where each begins. */
  function Flat(keys: seq<Bytes>): Bytes {
    if keys == [] then [] else Flat(keys[..|keys|-1]) + keys[|keys|-1]
  }

  function Starts(keys: seq<Bytes>): (r: seq<nat>)
    ensures |r| == |keys|
  {
    if keys == [] then [] else Starts(keys[..|keys|-1]) + [|Flat(keys[..|keys|-1])|]
  }

  lemma NoKeys()
    ensures Flat([]) == [] && Starts([]) == []
  {}

  lemma {:induction false} KeyAt(keys: seq<Bytes>, i: nat)
    requires i < |keys|
    ensures var start := Starts(keys)[i];
            var limit := if i + 1 < |keys| then Starts(keys)[i + 1] else |Flat(keys)|;
            start <= limit <= |Flat(keys)| && Flat(keys)[start..limit] == keys[i]
  {
    var init := keys[..|keys|-1];
    if i < |keys| - 1 {
      KeyAt(init, i);
      var start := Starts(init)[i];
      var limit := if i + 1 < |init| then Starts(init)[i + 1] else |Flat(init)|;
      assert Flat(keys)[start..limit] == Flat(init)[start..limit];
    }
  }

  // ----- the builder -----

  class FilterBlockBuilder {
    const policy: Policy
    var keys: Bytes
    var start: seq<nat>
    var result: Bytes
    var filterOffsets: seq<nat>
    ghost var slots: seq<seq<Bytes>>
    ghost var pending: seq<Bytes>
    ghost var offset: nat
    ghost var added: set<(nat, Bytes)>

    ghost predicate Valid()
      reads this
    {
      && result == Filters(policy, slots) && filterOffsets == Offsets(policy, slots)
      && keys == Flat(pending) && start == Starts(pending)
      && |slots| == offset / FILTER_BASE
      && Placed(added, slots, pending)
    }

    constructor (policy: Policy)
      ensures Valid() && offset == 0 && added == {} && this.policy == policy
    {
      this.policy, keys, start, result, filterOffsets := policy, [], [], [], [];
      slots, pending, offset, added := [], [], 0, {};
    }

    /** The next keys belong to the block that begins at `blockOffset`. */
    method StartBlock(blockOffset: nat)
      requires Valid() && blockOffset >= offset
      modifies this
      ensures Valid() && offset == blockOffset && added == old(added)
    {
      var filterIndex := blockOffset / FILTER_BASE;
      SlotGrows(offset, blockOffset);
      while filterIndex > |filterOffsets|
        invariant |slots| <= filterIndex && added == old(added)
        invariant result == Filters(policy, slots) && filterOffsets == Offsets(policy, slots)
        invariant keys == Flat(pending) && start == Starts(pending) && Placed(added, slots, pending)
        decreases filterIndex - |filterOffsets|
      {
        GenerateFilter();
      }
      offset := blockOffset;
    }

    method AddKey(key: Bytes)
      requires Valid()
      modifies this
      ensures Valid() && offset == old(offset) && added == old(added) + {(offset, key)}
    {
      start := start + [|keys|];
      keys := keys + key;
      pending := pending + [key];
      added := added + {(offset, key)};
      assert pending[..|pending|-1] == old(pending);
    }

    method GenerateFilter()
      requires result == Filters(policy, slots) && filterOffsets == Offsets(policy, slots)
      requires keys == Flat(pending) && start == Starts(pending) && Placed(added, slots, pending)
      modifies this
      ensures result == Filters(policy, slots) && filterOffsets == Offsets(policy, slots)
      ensures keys == Flat(pending) && start == Starts(pending) && Placed(added, slots, pending)
      ensures slots == old(slots) + [old(pending)] && pending == [] && added == old(added) && offset == old(offset)
    {
      hide Filters, Offsets, Flat, Starts, Placed;
      NoKeys();
      OneSlotMore(policy, slots, pending);
      MovesToSlot(added, slots, pending);
      var numKeys := |start|;
      filterOffsets := filterOffsets + [|result|];
      slots := slots + [pending];
      if numKeys > 0 {
        var tmpKeys := KeyList(keys, start, pending);
        result := result + policy.create(tmpKeys);
        keys, start := [], [];
      }
      pending := [];
    }

    /** The keys that were flattened. */
    static method KeyList(keys: Bytes, start: seq<nat>, ghost pending: seq<Bytes>) returns (tmpKeys: seq<Bytes>)
      requires keys == Flat(pending) && start == Starts(pending)
      ensures tmpKeys == pending
    {
      hide Flat, Starts;
      var ends := start + [|keys|];
      tmpKeys := [];
      var i := 0;
      while i < |start|
        invariant 0 <= i <= |start| && tmpKeys == pending[..i]
      {
        KeyAt(pending, i);
        assert pending[..i + 1] == pending[..i] + [pending[i]];
        tmpKeys := tmpKeys + [keys[ends[i]..ends[i + 1]]];
        i := i + 1;
      }
      assert pending[..i] == pending;
    }

    /** The filters, then where they begin, then where that list begins, then the base. */
    method Finish() returns (contents: Bytes)
      requires Valid()
      modifies this
      ensures added == old(added) && Placed(added, slots, []) && contents == BlockContents(policy, slots)
    {
      hide Filters, Offsets, FixedAll, Fixed;
      if start != [] {
        GenerateFilter();
      } else {
        NothingPending(added, slots, pending);
      }
      ghost var filters, offsets := result, filterOffsets;
      var arrayOffset := |result|;
      var i := 0;
      EmptyFixed();
      assert offsets[..0] == [];
      while i < |filterOffsets|
        invariant filterOffsets == offsets && 0 <= i <= |offsets| && result == filters + FixedAll(offsets[..i])
        invariant slots == old(slots) + (if old(start) != [] then [old(pending)] else []) && added == old(added)
      {
        FixedAllSnoc(offsets, i);
        result := result + Fixed(filterOffsets[i], 4);
        i := i + 1;
      }
      assert offsets[..i] == offsets;
      result := result + Fixed(arrayOffset, 4);
      result := result + [FILTER_BASE_LG];
      contents := result;
    }
  }

  /** Every key is in the slot of the block it was added for, or waits for that slot. */
  ghost predicate Placed(added: set<(nat, Bytes)>, slots: seq<seq<Bytes>>, pending: seq<Bytes>) {
    forall o, k :: (o, k) in added ==>
      var i := o / FILTER_BASE;
      if i < |slots| then k in slots[i] else i == |slots| && k in pending
  }

  /** The filters, where each begins, where that list begins, and the base. */
  function BlockContents(p: Policy, slots: seq<seq<Bytes>>): Bytes {
    Filters(p, slots) + FixedAll(Offsets(p, slots)) + Fixed(|Filters(p, slots)|, 4) + [FILTER_BASE_LG]
  }

  /** A filter block with filters of less than 4 GB, so that the offsets fit. */
  ghost predicate IsFilterBlock(p: Policy, contents: Bytes, slots: seq<seq<Bytes>>) {
    |Filters(p, slots)| < W32 && contents == BlockContents(p, slots)
  }

  // ----- the reader -----

  /** What the filter of the slot of a block says; without one anything may match. */
  ghost predicate MayMatch(p: Policy, slots: seq<seq<Bytes>>, blockOffset: nat, key: Bytes) {
    var i := blockOffset / FILTER_BASE;
    i < |slots| ==> p.mayMatch(key, SlotFilter(p, slots[i]))
  }

  /** A key that was added for a block at an offset is never ruled out for that offset. */
  lemma NeverRulesOut(p: Policy, slots: seq<seq<Bytes>>, added: set<(nat, Bytes)>, blockOffset: nat, key: Bytes)
    requires Sound(p) && Placed(added, slots, []) && (blockOffset, key) in added
    ensures MayMatch(p, slots, blockOffset, key)
  {
    var i := blockOffset / FILTER_BASE;
    if i < |slots| { assert key in slots[i] && SlotFilter(p, slots[i]) == p.create(slots[i]); }
  }

  lemma ContentsParts(p: Policy, contents: Bytes, slots: seq<seq<Bytes>>)
    requires IsFilterBlock(p, contents, slots)
    ensures var n, a := |contents|, |Filters(p, slots)|;
            && n == a + 4 * |slots| + 5 && contents[n - 1] == FILTER_BASE_LG && Unfixed(contents[n - 5..n - 1]) == a
            && contents[..a] == Filters(p, slots)
  {
    hide Filters, Offsets, FixedAll, Fixed, Unfixed;
    var n, a := |contents|, |Filters(p, slots)|;
    assert contents[n - 5..n - 1] == Fixed(a, 4);
    Widths();
    FixedRoundTrip(a, 4);
  }

  /** The entry of a slot in the list of offsets; that of the slot after the last one is where
      the list begins, which is where the filters end. */
  lemma OffsetEntry(p: Policy, contents: Bytes, slots: seq<seq<Bytes>>, i: nat)
    requires IsFilterBlock(p, contents, slots) && i <= |slots|
    ensures var a := |Filters(p, slots)|;
            && a + 4 * i + 4 <= |contents|
            && Unfixed(contents[a + 4 * i..a + 4 * i + 4]) == if i < |slots| then Offsets(p, slots)[i] else a
  {
    hide Filters, Offsets, FixedAll, Fixed, Unfixed;
    var offsets, a := Offsets(p, slots), |Filters(p, slots)|;
    Widths();
    if i < |slots| {
      FixedAllAt(offsets, i);
      assert contents[a + 4 * i..a + 4 * i + 4] == FixedAll(offsets)[4 * i..4 * i + 4];
      SlotAt(p, slots, i);
      FixedRoundTrip(offsets[i], 4);
    } else {
      assert contents[a + 4 * i..a + 4 * i + 4] == Fixed(a, 4);
      FixedRoundTrip(a, 4);
    }
  }

  class FilterBlockReader {
    const policy: Policy
    const contents: Bytes
    const base: nat
    const offset: nat
    const num: nat

    constructor (policy: Policy, contents: Bytes)
      ensures Shape() && this.policy == policy && this.contents == contents
    {
      this.policy, this.contents := policy, contents;
      var n := |contents|;
      var lg, at, count := 0, 0, 0;
      if n >= 5 {
        lg := contents[n - 1];
        var lastWord := Unfixed(contents[n - 5..n - 1]);
        if lastWord <= n - 5 {
          at, count := lastWord, (n - 5 - lastWord) / 4;
        }
      }
      base, offset, num := lg, at, count;
      new;
      hide Filters, Offsets;
      forall slots | IsFilterBlock(policy, contents, slots)
        ensures base == FILTER_BASE_LG && offset == |Filters(policy, slots)| && num == |slots|
      {
        ContentsParts(policy, contents, slots);
      }
    }

    ghost predicate Shape() {
      && (num > 0 ==> offset + 4 * num + 5 <= |contents|)
      && forall slots :: IsFilterBlock(policy, contents, slots) ==>
           base == FILTER_BASE_LG && offset == |Filters(policy, slots)| && num == |slots|
    }

    /** Errors are taken for matches. */
    method KeyMayMatch(blockOffset: nat, key: Bytes) returns (r: bool)
      requires Shape()
      ensures forall slots :: IsFilterBlock(policy, contents, slots) ==>
              (r <==> MayMatch(policy, slots, blockOffset, key))
    {
      hide Filters, Offsets, IsFilterBlock, RightShift, MayMatch, Unfixed;
      var index := RightShift(blockOffset, base);
      r := true;
      if index < num {
        var start := Unfixed(contents[offset + 4 * index..offset + 4 * index + 4]);
        var limit := Unfixed(contents[offset + 4 * index + 4..offset + 4 * index + 8]);
        if start <= limit && limit <= offset {
          r := policy.mayMatch(key, contents[start..limit]);
        } else if start == limit {
          r := false;
        }
        forall slots | IsFilterBlock(policy, contents, slots) ensures r <==> MayMatch(policy, slots, blockOffset, key) {
          InSlot(policy, contents, slots, blockOffset, key, index);
        }
      } else {
        forall slots | IsFilterBlock(policy, contents, slots) ensures MayMatch(policy, slots, blockOffset, key) {
          NoSlot(policy, slots, blockOffset, key);
        }
      }
    }
  }

  /** A shift to the right. */
  function RightShift(x: nat, lg: nat): nat {
    PowPositive(lg);
    x / Pow(2, lg)
  }

  lemma ShiftByBase(x: nat)
    ensures RightShift(x, FILTER_BASE_LG) == x / FILTER_BASE
  {
    PowerOfTwo();
  }

  lemma NoSlot(p: Policy, slots: seq<seq<Bytes>>, blockOffset: nat, key: Bytes)
    requires RightShift(blockOffset, FILTER_BASE_LG) >= |slots|
    ensures MayMatch(p, slots, blockOffset, key)
  {
    hide RightShift;
    ShiftByBase(blockOffset);
  }

  lemma InSlot(p: Policy, contents: Bytes, slots: seq<seq<Bytes>>, blockOffset: nat, key: Bytes, index: nat)
    requires IsFilterBlock(p, contents, slots) && index == RightShift(blockOffset, FILTER_BASE_LG) < |slots|
    ensures var a := |Filters(p, slots)|;
            && a + 4 * index + 8 <= |contents|
            && var start, limit := Unfixed(contents[a + 4 * index..a + 4 * index + 4]),
               Unfixed(contents[a + 4 * index + 4..a + 4 * index + 8]);
               && start <= limit <= a
               && (p.mayMatch(key, contents[start..limit]) <==> MayMatch(p, slots, blockOffset, key))
  {
    hide Filters, Offsets, IsFilterBlock, RightShift, Unfixed;
    ShiftByBase(blockOffset);
    ContentsParts(p, contents, slots);
    OffsetEntry(p, contents, slots, index);
    OffsetEntry(p, contents, slots, index + 1);
    SlotAt(p, slots, index);
    var a := |Filters(p, slots)|;
    var start, limit := Unfixed(contents[a + 4 * index..a + 4 * index + 4]),
      Unfixed(contents[a + 4 * index + 4..a + 4 * index + 8]);
    SliceOfPrefix(contents, a, start, limit);
  }

  lemma SliceOfPrefix(b: Bytes, n: nat, i: nat, j: nat)
    requires i <= j <= n <= |b|
    ensures b[i..j] == b[..n][i..j]
  {}

  lemma PowerOfTwo()
    ensures Pow(2, 11) == FILTER_BASE
  {
    assert Pow(2, 4) == 16 && Pow(2, 8) == 256 && Pow(2, 11) == 2048;
  }

  lemma {:induction false} PowPositive(n: nat)
    ensures Pow(2, n) > 0
  {
    if n > 0 { PowPositive(n - 1); }
  }

  lemma SlotGrows(a: nat, b: nat)
    requires a <= b
    ensures a / FILTER_BASE <= b / FILTER_BASE
  {}

  lemma MovesToSlot(added: set<(nat, Bytes)>, slots: seq<seq<Bytes>>, pending: seq<Bytes>)
    requires Placed(added, slots, pending)
    ensures Placed(added, slots + [pending], [])
  {}

  lemma NothingPending(added: set<(nat, Bytes)>, slots: seq<seq<Bytes>>, pending: seq<Bytes>)
    requires Placed(added, slots, pending) && Starts(pending) == []
    ensures pending == [] && Placed(added, slots, [])
  {}
}
