/** A cursor over a sorted run: what every iterator of the store behaves like. */
module Cursors {
  import opened InternalKeys

  /** `p` is where a seek for `k` lands in `es`. */
  ghost predicate SeekPosition(es: seq<Entry>, k: InternalKey, p: nat) {
    && p <= |es|
    && (forall i :: 0 <= i < p ==> Less(es[i].key, k))
    && (forall i :: p <= i < |es| ==> !Less(es[i].key, k))
  }

  /** One step back; from the first entry that makes a cursor invalid. */
  function PrevPosition(n: nat, p: nat): nat
    requires p < n
  {
    if p == 0 then n else p - 1
  }

  /** Where a cursor is on its way back: -1 when it has left the front. */
  function BackwardsFrom(n: nat, p: nat): int
    requires p <= n
  {
    if p < n then p else -1
  }

  function LastPosition(n: nat): nat {
    if n == 0 then 0 else n - 1
  }

  /** The position is that of an entry, or the length of the run when the cursor is invalid. */
  class Cursor {
    const entries: seq<Entry>
    var pos: nat

    constructor (entries: seq<Entry>)
      ensures this.entries == entries && pos == |entries|
    {
      this.entries := entries;
      pos := |entries|;
    }

    predicate Valid()
      reads this
    {
      pos < |entries|
    }

    function Key(): InternalKey
      requires Valid()
      reads this
    {
      entries[pos].key
    }

    function Value(): Bytes
      requires Valid()
      reads this
    {
      entries[pos].value
    }

    method SeekToFirst()
      modifies this
      ensures pos == 0
    {
      pos := 0;
    }

    method SeekToLast()
      modifies this
      ensures pos == LastPosition(|entries|)
    {
      pos := if entries == [] then 0 else |entries| - 1;
    }

    method Seek(target: InternalKey)
      requires Sorted(entries)
      modifies this
      ensures SeekPosition(entries, target, pos)
    {
      var left, right := 0, |entries|;
      while left < right
        invariant 0 <= left <= right <= |entries|
        invariant forall i :: 0 <= i < left ==> Less(entries[i].key, target)
        invariant forall i :: right <= i < |entries| ==> !Less(entries[i].key, target)
      {
        var mid := (left + right) / 2;
        if Less(entries[mid].key, target) { left := mid + 1; } else { right := mid; }
      }
      pos := left;
    }

    method Next()
      requires Valid()
      modifies this
      ensures pos == old(pos) + 1
    {
      pos := pos + 1;
    }

    method Prev()
      requires Valid()
      modifies this
      ensures pos == PrevPosition(|entries|, old(pos))
    {
      pos := if pos == 0 then |entries| else pos - 1;
    }
  }
}
