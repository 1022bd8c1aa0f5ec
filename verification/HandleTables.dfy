/** The hash table of the cache: buckets of chained handles, doubled as it fills. */
module HandleTables {
  import opened InternalKeys

  /** A handle in the table; `hash` is the hash of its key. */
  datatype Slot = Slot(key: Bytes, hash: nat, handle: nat)

  predicate PowerOfTwo(n: nat) {
    n == 1 || (n > 0 && n % 2 == 0 && PowerOfTwo(n / 2))
  }

  /** Every handle sits in the bucket of its hash, and no key is in a bucket twice. */
  ghost predicate Placed(list: seq<seq<Slot>>, hashOf: Bytes -> nat) {
    && list != []
    && (forall b, i :: 0 <= b < |list| && 0 <= i < |list[b]| ==> InPlace(list, hashOf, b, i))
    && (forall b, i, j :: 0 <= b < |list| && 0 <= i < j < |list[b]| ==> list[b][i].key != list[b][j].key)
  }

  ghost predicate InPlace(list: seq<seq<Slot>>, hashOf: Bytes -> nat, b: nat, i: nat)
    requires b < |list| && i < |list[b]|
  {
    list[b][i].hash == hashOf(list[b][i].key) && list[b][i].hash % |list| == b
  }

  /** The table holds exactly the pairs of `contents`. */
  ghost predicate Holds(list: seq<seq<Slot>>, hashOf: Bytes -> nat, contents: map<Bytes, nat>) {
    && list != []
    && (forall b, i :: 0 <= b < |list| && 0 <= i < |list[b]| ==>
       list[b][i].key in contents && contents[list[b][i].key] == list[b][i].handle)
    && (forall k :: k in contents ==> Slot(k, hashOf(k), contents[k]) in list[hashOf(k) % |list|])
  }

  class HandleTable {
    const hashOf: Bytes -> nat
    var length: nat
    var elems: nat
    var list: seq<seq<Slot>>
    ghost var contents: map<Bytes, nat>

    constructor (hashOf: Bytes -> nat)
      ensures Valid() && contents == map[] && this.hashOf == hashOf
    {
      this.hashOf, length, elems, list, contents := hashOf, 4, 0, [[], [], [], []], map[];
      new;
      assert PowerOfTwo(2) && PowerOfTwo(4);
    }

    /** Never more handles than buckets; the number of buckets is a power of two, so that the
        low bits of a hash are its remainder. */
    ghost predicate Valid()
      reads this
    {
      && length == |list| && PowerOfTwo(length) && elems == |contents| && elems <= length
      && Placed(list, hashOf) && Holds(list, hashOf, contents)
    }

    /** Where in its bucket a key is, or the end of the bucket. */
    method FindPointer(key: Bytes, hash: nat) returns (b: nat, i: nat)
      requires |list| == length && Placed(list, hashOf) && Holds(list, hashOf, contents) && hash == hashOf(key)
      ensures b == hash % length && b < |list| && i <= |list[b]|
      ensures if key in contents then i < |list[b]| && list[b][i] == Slot(key, hash, contents[key]) else i == |list[b]|
    {
      b, i := hash % length, 0;
      while i < |list[b]| && (list[b][i].hash != hash || list[b][i].key != key)
        invariant i <= |list[b]| && forall j :: 0 <= j < i ==> list[b][j].key != key
      {
        assert InPlace(list, hashOf, b, i);
        i := i + 1;
      }
    }

    method Lookup(key: Bytes, hash: nat) returns (r: Option<nat>)
      requires Valid() && hash == hashOf(key)
      ensures r == if key in contents then Some(contents[key]) else None
    {
      var b, i := FindPointer(key, hash);
      r := if i < |list[b]| then Some(list[b][i].handle) else None;
    }

    /** Replaces the handle of the key, which is returned, or adds one. */
    method Insert(key: Bytes, hash: nat, handle: nat) returns (before: Option<nat>)
      requires Valid() && hash == hashOf(key)
      modifies this
      ensures Valid() && contents == old(contents)[key := handle]
      ensures before == if key in old(contents) then Some(old(contents)[key]) else None
      ensures length == old(length) || (old(length) < elems && (length == 4 || length / 2 < elems))
    {
      hide Placed, Holds, PowerOfTwo;
      var b, i := FindPointer(key, hash);
      var slot := Slot(key, hash, handle);
      if i < |list[b]| {
        before := Some(list[b][i].handle);
        Replaced(list, hashOf, contents, b, i, slot);
        list := list[b := list[b][i := slot]];
        SameSize(contents, key, handle);
        contents := contents[key := handle];
      } else {
        before := None;
        Appended(list, hashOf, contents, b, slot);
        list := list[b := list[b] + [slot]];
        OneLarger(contents, key, handle);
        contents := contents[key := handle];
        elems := elems + 1;
        if elems > length { Resize(); }
      }
    }

    method Remove(key: Bytes, hash: nat) returns (removed: Option<nat>)
      requires Valid() && hash == hashOf(key)
      modifies this
      ensures Valid() && contents == old(contents) - {key}
      ensures removed == if key in old(contents) then Some(old(contents)[key]) else None
    {
      hide Placed, Holds, PowerOfTwo;
      var b, i := FindPointer(key, hash);
      removed := None;
      if i < |list[b]| {
        removed := Some(list[b][i].handle);
        Unlinked(list, hashOf, contents, b, i);
        list := list[b := list[b][..i] + list[b][i + 1..]];
        OneSmaller(contents, key);
        contents := contents - {key};
        elems := elems - 1;
      } else {
        assert contents - {key} == contents;
      }
    }

    /** Twice as many buckets, until there are enough; every handle goes to its new bucket. */
    method Resize()
      requires length == |list| && PowerOfTwo(length) && elems == |contents| && Placed(list, hashOf)
               && Holds(list, hashOf, contents)
      modifies this
      ensures Valid() && contents == old(contents) && elems == old(elems)
      ensures length == 4 || length / 2 < elems
    {
      hide Placed, Holds;
      var newLength := 4;
      assert PowerOfTwo(2) && PowerOfTwo(4);
      while newLength < elems
        invariant newLength >= 4 && PowerOfTwo(newLength) && (newLength == 4 || newLength / 2 < elems)
        decreases elems - newLength
      {
        assert 2 * newLength / 2 == newLength;
        newLength := 2 * newLength;
      }
      hide PowerOfTwo;
      var newList := EmptyBuckets(newLength);
      ghost var moved: set<Slot> := {};
      NoneMoved(newLength, hashOf);
      var b := 0;
      while b < |list|
        invariant 0 <= b <= |list| && list == old(list) && contents == old(contents) && elems == old(elems)
        invariant |newList| == newLength && Moved(newList, hashOf, moved) && moved == SlotsBelow(list, b)
      {
        newList, moved := MoveBucket(newList, list[b], moved, b);
        b := b + 1;
      }
      AllMoved(list, hashOf, contents, newList, moved);
      list, length := newList, newLength;
    }

    /** Pushes the handles of one bucket onto their new buckets. */
    method MoveBucket(list0: seq<seq<Slot>>, bucket: seq<Slot>, ghost moved0: set<Slot>, ghost b: nat)
      returns (newList: seq<seq<Slot>>, ghost moved: set<Slot>)
      requires b < |list| && bucket == list[b] && Placed(list, hashOf) && list0 != []
      requires Moved(list0, hashOf, moved0) && moved0 == SlotsBelow(list, b)
      ensures |newList| == |list0| && Moved(newList, hashOf, moved) && moved == SlotsBelow(list, b + 1)
    {
      hide Placed, Moved;
      newList, moved := list0, moved0;
      var i := 0;
      while i < |bucket|
        invariant 0 <= i <= |bucket| && |newList| == |list0| && Moved(newList, hashOf, moved)
        invariant moved == moved0 + set s | s in bucket[..i]
      {
        var s := bucket[i];
        NotMovedYet(list, hashOf, b, i, moved);
        PushOne(newList, hashOf, moved, s);
        var nb := s.hash % |newList|;
        newList := newList[nb := [s] + newList[nb]];
        moved := moved + {s};
        assert bucket[..i + 1] == bucket[..i] + [s];
        i := i + 1;
      }
      assert bucket[..i] == bucket;
    }
  }

  function EmptyBuckets(n: nat): (r: seq<seq<Slot>>)
    ensures |r| == n && forall b :: 0 <= b < n ==> r[b] == []
  {
    if n == 0 then [] else EmptyBuckets(n - 1) + [[]]
  }

  /** The slots of the first `n` buckets. */
  ghost function SlotsBelow(list: seq<seq<Slot>>, n: nat): set<Slot>
    requires n <= |list|
  {
    set b, s | 0 <= b < n && s in list[b] :: s
  }

  /** The new buckets hold exactly the slots moved so far. */
  ghost predicate Moved(list: seq<seq<Slot>>, hashOf: Bytes -> nat, moved: set<Slot>) {
    && Placed(list, hashOf)
    && (forall b, i :: 0 <= b < |list| && 0 <= i < |list[b]| ==> list[b][i] in moved)
    && (forall s :: s in moved ==> s in list[s.hash % |list|])
  }

  lemma NoneMoved(n: nat, hashOf: Bytes -> nat)
    requires n > 0
    ensures Moved(EmptyBuckets(n), hashOf, {})
  {}

  lemma NotMovedYet(list: seq<seq<Slot>>, hashOf: Bytes -> nat, b: nat, i: nat, moved: set<Slot>)
    requires b < |list| && i < |list[b]| && Placed(list, hashOf)
             && moved == SlotsBelow(list, b) + set s | s in list[b][..i]
    ensures list[b][i].hash == hashOf(list[b][i].key) && forall s :: s in moved ==> s.key != list[b][i].key
  {
    assert InPlace(list, hashOf, b, i);
    forall s | s in moved ensures s.key != list[b][i].key {
      if s in list[b][..i] {
        var j :| 0 <= j < i && list[b][..i][j] == s;
        assert list[b][j] == s;
      } else {
        var c :| 0 <= c < b && s in list[c];
        var j :| 0 <= j < |list[c]| && list[c][j] == s;
        assert InPlace(list, hashOf, c, j);
      }
    }
  }

  lemma PushOne(list: seq<seq<Slot>>, hashOf: Bytes -> nat, moved: set<Slot>, s: Slot)
    requires Moved(list, hashOf, moved) && s.hash == hashOf(s.key) && list != [] && forall t :: t in moved ==>
             t.key != s.key
    ensures var nb := s.hash % |list|; Moved(list[nb := [s] + list[nb]], hashOf, moved + {s})
  {
    var nb := s.hash % |list|;
    var r := list[nb := [s] + list[nb]];
    forall b, i | 0 <= b < |r| && 0 <= i < |r[b]| ensures InPlace(r, hashOf, b, i) && r[b][i] in moved + {s} {
      if b == nb && i > 0 { assert r[b][i] == list[b][i - 1] && InPlace(list, hashOf, b, i - 1); }
      if b != nb { assert InPlace(list, hashOf, b, i); }
    }
    forall b, i, j | 0 <= b < |r| && 0 <= i < j < |r[b]| ensures r[b][i].key != r[b][j].key {
      if b == nb { assert r[b][j] == list[b][j - 1]; if i > 0 { assert r[b][i] == list[b][i - 1]; } }
    }
  }

  lemma AllMoved(list: seq<seq<Slot>>, hashOf: Bytes -> nat, contents: map<Bytes, nat>, newList: seq<seq<Slot>>,
                 moved: set<Slot>)
    requires Placed(list, hashOf) && Holds(list, hashOf, contents)
    requires Moved(newList, hashOf, moved) && moved == SlotsBelow(list, |list|)
    ensures Placed(newList, hashOf) && Holds(newList, hashOf, contents)
  {
    forall b, i | 0 <= b < |newList| && 0 <= i < |newList[b]|
      ensures newList[b][i].key in contents && contents[newList[b][i].key] == newList[b][i].handle
    {
      var s := newList[b][i];
      var c :| 0 <= c < |list| && s in list[c];
      var j :| 0 <= j < |list[c]| && list[c][j] == s;
    }
    forall k | k in contents ensures Slot(k, hashOf(k), contents[k]) in newList[hashOf(k) % |newList|] {
      assert Slot(k, hashOf(k), contents[k]) in list[hashOf(k) % |list|];
      assert Slot(k, hashOf(k), contents[k]) in moved;
    }
  }

  lemma Replaced(list: seq<seq<Slot>>, hashOf: Bytes -> nat, contents: map<Bytes, nat>, b: nat, i: nat, slot: Slot)
    requires Placed(list, hashOf) && Holds(list, hashOf, contents) && slot.hash == hashOf(slot.key)
    requires b == slot.hash % |list| && b < |list| && i < |list[b]| && list[b][i].key == slot.key
    ensures var r := list[b := list[b][i := slot]];
            Placed(r, hashOf) && Holds(r, hashOf, contents[slot.key := slot.handle])
  {
    var r, c := list[b := list[b][i := slot]], contents[slot.key := slot.handle];
    forall d, j | 0 <= d < |r| && 0 <= j < |r[d]|
      ensures InPlace(r, hashOf, d, j) && r[d][j].key in c && c[r[d][j].key] == r[d][j].handle
    {
      assert InPlace(list, hashOf, d, j) && InPlace(list, hashOf, b, i);
    }
    forall k | k in c ensures Slot(k, hashOf(k), c[k]) in r[hashOf(k) % |r|] {
      if k == slot.key {
        assert r[b][i] == slot;
      } else {
        var d := hashOf(k) % |list|;
        var j :| 0 <= j < |list[d]| && list[d][j] == Slot(k, hashOf(k), contents[k]);
        assert r[d][j] == list[d][j];
      }
    }
  }

  lemma Appended(list: seq<seq<Slot>>, hashOf: Bytes -> nat, contents: map<Bytes, nat>, b: nat, slot: Slot)
    requires Placed(list, hashOf) && Holds(list, hashOf, contents) && slot.hash == hashOf(slot.key)
             && slot.key !in contents
    requires b == slot.hash % |list| && b < |list|
    ensures var r := list[b := list[b] + [slot]];
            Placed(r, hashOf) && Holds(r, hashOf, contents[slot.key := slot.handle])
  {
    var r, c := list[b := list[b] + [slot]], contents[slot.key := slot.handle];
    forall d, j | 0 <= d < |r| && 0 <= j < |r[d]|
      ensures InPlace(r, hashOf, d, j) && r[d][j].key in c && c[r[d][j].key] == r[d][j].handle
    {
      if d != b || j < |list[b]| { assert r[d][j] == list[d][j] && InPlace(list, hashOf, d, j); }
    }
    forall k | k in c ensures Slot(k, hashOf(k), c[k]) in r[hashOf(k) % |r|] {
      if k == slot.key { assert r[b][|list[b]|] == slot; }
    }
  }

  lemma Unlinked(list: seq<seq<Slot>>, hashOf: Bytes -> nat, contents: map<Bytes, nat>, b: nat, i: nat)
    requires Placed(list, hashOf) && Holds(list, hashOf, contents) && b < |list| && i < |list[b]|
    ensures var r := list[b := list[b][..i] + list[b][i + 1..]];
            Placed(r, hashOf) && Holds(r, hashOf, contents - {list[b][i].key})
  {
    var gone := list[b][i];
    var r, c := list[b := list[b][..i] + list[b][i + 1..]], contents - {gone.key};
    forall d, j | 0 <= d < |r| && 0 <= j < |r[d]|
      ensures InPlace(r, hashOf, d, j) && r[d][j].key in c && c[r[d][j].key] == r[d][j].handle
    {
      var l := if d == b && j >= i then j + 1 else j;
      assert r[d][j] == list[d][l] && InPlace(list, hashOf, d, l) && InPlace(list, hashOf, b, i);
      if d == b && l < i { assert list[b][l].key != list[b][i].key; }
    }
    forall d, j, l | 0 <= d < |r| && 0 <= j < l < |r[d]| ensures r[d][j].key != r[d][l].key {
      var j', l' := if d == b && j >= i then j + 1 else j, if d == b && l >= i then l + 1 else l;
      assert r[d][j] == list[d][j'] && r[d][l] == list[d][l'];
    }
    forall k | k in c ensures Slot(k, hashOf(k), c[k]) in r[hashOf(k) % |r|] {
      var d := hashOf(k) % |list|;
      var j :| 0 <= j < |list[d]| && list[d][j] == Slot(k, hashOf(k), contents[k]);
      if d == b { assert r[d][if j < i then j else j - 1] == list[d][j]; }
    }
  }

  lemma SameSize(m: map<Bytes, nat>, k: Bytes, v: nat)
    requires k in m
    ensures |m[k := v]| == |m|
  {
    assert m[k := v].Keys == m.Keys;
  }

  lemma OneLarger(m: map<Bytes, nat>, k: Bytes, v: nat)
    requires k !in m
    ensures |m[k := v]| == |m| + 1
  {
    assert m[k := v].Keys == m.Keys + {k};
  }

  lemma OneSmaller(m: map<Bytes, nat>, k: Bytes)
    requires k in m
    ensures |m - {k}| == |m| - 1
  {
    assert (m - {k}).Keys == m.Keys - {k};
  }
}
