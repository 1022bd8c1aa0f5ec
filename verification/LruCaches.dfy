/** The reference-counted LRU cache. */
module LruCaches {
  import opened InternalKeys
  import opened HandleTables

  /** A cache entry; `refs` counts the references of clients and that of the cache. */
  datatype Node = Node(key: Bytes, hash: nat, value: nat, charge: nat, refs: nat, inCache: bool)

  type Memory = map<nat, Node>

  /** Takes a handle off a list, if it is there. */
  function Without(list: seq<nat>, e: nat): seq<nat> {
    if list == [] then [] else if list[0] == e then list[1..] else [list[0]] + Without(list[1..], e)
  }

  ghost predicate NoTwice(list: seq<nat>) {
    forall i, j :: 0 <= i < j < |list| ==> list[i] != list[j]
  }

  lemma {:induction false} WithoutMembers(list: seq<nat>, e: nat)
    requires NoTwice(list)
    ensures NoTwice(Without(list, e)) && forall x :: x in Without(list, e) <==> x in list && x != e
    ensures |Without(list, e)| == if e in list then |list| - 1 else |list|
  {
    if list != [] {
      var tail := list[1..];
      assert list == [list[0]] + tail;
      WithoutMembers(tail, e);
      var r := Without(tail, e);
      forall i | 0 <= i < |r| ensures r[i] != list[0] { assert r[i] in tail; }
    }
  }

  lemma AppendMembers(list: seq<nat>, e: nat)
    requires NoTwice(list) && e !in list
    ensures NoTwice(list + [e]) && forall x :: x in list + [e] <==> x in list || x == e
  {
    assert forall i :: 0 <= i < |list| ==> list[i] in list;
  }

  /** The charges of the handles on a list. */
  function Charges(m: Memory, list: seq<nat>): nat
    requires forall e :: e in list ==> e in m
  {
    if list == [] then 0 else m[list[0]].charge + Charges(m, list[1..])
  }

  lemma {:induction false} ChargesSame(m: Memory, m': Memory, list: seq<nat>)
    requires forall e :: e in list ==> e in m && e in m' && m'[e].charge == m[e].charge
    ensures Charges(m', list) == Charges(m, list)
  {
    if list != [] { ChargesSame(m, m', list[1..]); }
  }

  lemma {:induction false} ChargesWithout(m: Memory, list: seq<nat>, e: nat)
    requires NoTwice(list) && e in list && forall x :: x in list ==> x in m
    ensures (forall x :: x in Without(list, e) ==> x in m)
            && Charges(m, Without(list, e)) + m[e].charge == Charges(m, list)
  {
    WithoutMembers(list, e);
    if list[0] != e {
      assert list == [list[0]] + list[1..];
      ChargesWithout(m, list[1..], e);
      WithoutMembers(list[1..], e);
      assert Without(list, e)[1..] == Without(list[1..], e);
    }
  }

  lemma {:induction false} ChargesAppend(m: Memory, list: seq<nat>, e: nat)
    requires e in m && forall x :: x in list ==> x in m
    ensures Charges(m, list + [e]) == Charges(m, list) + m[e].charge
  {
    if list != [] {
      assert (list + [e])[1..] == list[1..] + [e];
      ChargesAppend(m, list[1..], e);
    } else {
      assert list + [e] == [e] && [e][1..] == [];
    }
  }

  lemma WithoutAbsent(list: seq<nat>, e: nat)
    requires e !in list
    ensures Without(list, e) == list
  {
    if list != [] {
      assert list == [list[0]] + list[1..];
      WithoutAbsent(list[1..], e);
    }
  }

  // ----- what the cache keeps -----

  /** Cached entries that nobody else refers to are on the LRU list, other cached ones on the
      in-use list. */
  ghost predicate Listed(m: Memory, lru: seq<nat>, inUse: seq<nat>) {
    && NoTwice(lru) && NoTwice(inUse)
    && (forall e :: e in lru <==> e in m && m[e].inCache && m[e].refs == 1)
    && (forall e :: e in inUse <==> e in m && m[e].inCache && m[e].refs >= 2)
  }

  /** How many handles a client holds. */
  function Held(held: map<nat, nat>, e: nat): nat {
    if e in held then held[e] else 0
  }

  function References(n: Node, held: nat, extra: bool): nat {
    held + (if n.inCache then 1 else 0) + (if extra then 1 else 0)
  }

  /** References are those of clients and of the cache, and one more for `extra`. */
  ghost predicate Counted(m: Memory, held: map<nat, nat>, extra: Option<nat>) {
    && (forall e :: e in m ==> m[e].refs > 0 && m[e].refs == References(m[e], Held(held, e), extra == Some(e)))
    && (forall e :: e in held && held[e] > 0 ==> e in m)
    && (extra.Some? ==> extra.value in m)
  }

  /** Every handle ever made is either alive or was given to its deleter once. */
  ghost predicate DeletedOnce(m: Memory, deleted: seq<nat>, next: nat) {
    && NoTwice(deleted)
    && (forall e :: e in m ==> e < next && e !in deleted)
    && (forall e :: e in deleted ==> e < next)
    && (forall e :: 0 <= e < next ==> e in m || e in deleted)
  }

  /** The table holds exactly the cached handles under their keys, but for `except`. */
  ghost predicate Tabled(m: Memory, contents: map<Bytes, nat>, hashOf: Bytes -> nat, except: Option<nat>) {
    && (forall e :: e in m && m[e].inCache ==>
       m[e].hash == hashOf(m[e].key) && (except != Some(e) ==> m[e].key in contents && contents[m[e].key] == e))
    && (forall k :: k in contents ==>
        contents[k] in m && m[contents[k]].inCache && m[contents[k]].key == k && except != Some(contents[k]))
  }

  ghost predicate Charged(m: Memory, lru: seq<nat>, inUse: seq<nat>, usage: nat) {
    && (forall e :: e in lru ==> e in m) && (forall e :: e in inUse ==> e in m)
    && usage == Charges(m, lru) + Charges(m, inUse)
  }

  // ----- one reference more, one reference less -----

  function Referenced(m: Memory, e: nat): Memory
    requires e in m
  {
    m[e := m[e].(refs := m[e].refs + 1)]
  }

  lemma RefListed(m: Memory, lru: seq<nat>, inUse: seq<nat>, e: nat)
    requires Listed(m, lru, inUse) && e in m && m[e].refs > 0
    ensures if m[e].refs == 1 && m[e].inCache then Listed(Referenced(m, e), Without(lru, e), inUse + [e])
            else Listed(Referenced(m, e), lru, inUse)
  {
    if m[e].refs == 1 && m[e].inCache {
      WithoutMembers(lru, e);
      AppendMembers(inUse, e);
    }
  }

  lemma MoveCharged(m: Memory, from: seq<nat>, to: seq<nat>, usage: nat, e: nat)
    requires Charged(m, from, to, usage) && NoTwice(from) && e in from
    ensures Charged(m, Without(from, e), to + [e], usage)
  {
    ChargesWithout(m, from, e);
    ChargesAppend(m, to, e);
  }

  lemma SameCharged(m: Memory, m': Memory, lru: seq<nat>, inUse: seq<nat>, usage: nat)
    requires Charged(m, lru, inUse, usage)
    requires forall e :: e in lru || e in inUse ==> e in m' && e in m && m'[e].charge == m[e].charge
    ensures Charged(m', lru, inUse, usage)
  {
    ChargesSame(m, m', lru);
    ChargesSame(m, m', inUse);
  }

  lemma SwapCharged(m: Memory, a: seq<nat>, b: seq<nat>, usage: nat)
    requires Charged(m, a, b, usage)
    ensures Charged(m, b, a, usage)
  {}

  lemma RefCounted(m: Memory, held: map<nat, nat>, e: nat)
    requires Counted(m, held, None) && e in m
    ensures Counted(Referenced(m, e), held, Some(e))
  {}

  lemma HeldMore(m: Memory, held: map<nat, nat>, e: nat)
    requires Counted(m, held, Some(e))
    ensures Counted(m, held[e := Held(held, e) + 1], None)
  {}

  lemma HeldLess(m: Memory, held: map<nat, nat>, e: nat)
    requires Counted(m, held, None) && e in held && held[e] > 0
    ensures Counted(m, held[e := held[e] - 1], Some(e))
  {}

  /** A client's or the cache's reference goes, not the last one. */
  function Released(m: Memory, e: nat): Memory
    requires e in m && m[e].refs > 0
  {
    m[e := m[e].(refs := m[e].refs - 1)]
  }

  lemma UnrefCounted(m: Memory, held: map<nat, nat>, e: nat)
    requires Counted(m, held, Some(e))
    ensures m[e].refs > 1 ==> Counted(Released(m, e), held, None)
    ensures m[e].refs == 1 ==> !m[e].inCache && Counted(m - {e}, held, None)
  {}

  lemma UnrefListed(m: Memory, lru: seq<nat>, inUse: seq<nat>, e: nat)
    requires Listed(m, lru, inUse) && e in m && m[e].refs > 1
    ensures if m[e].inCache && m[e].refs == 2 then Listed(Released(m, e), lru + [e], Without(inUse, e))
            else Listed(Released(m, e), lru, inUse)
  {
    if m[e].inCache && m[e].refs == 2 {
      WithoutMembers(inUse, e);
      AppendMembers(lru, e);
    }
  }

  lemma DropListed(m: Memory, lru: seq<nat>, inUse: seq<nat>, e: nat)
    requires Listed(m, lru, inUse) && e in m && !m[e].inCache
    ensures Listed(m - {e}, lru, inUse)
  {}

  lemma DropDeleted(m: Memory, deleted: seq<nat>, next: nat, e: nat)
    requires DeletedOnce(m, deleted, next) && e in m
    ensures DeletedOnce(m - {e}, deleted + [e], next)
  {
    AppendMembers(deleted, e);
  }

  lemma SameDeleted(m: Memory, m': Memory, deleted: seq<nat>, next: nat)
    requires DeletedOnce(m, deleted, next) && m'.Keys == m.Keys
    ensures DeletedOnce(m', deleted, next)
  {
    assert forall e :: e in m <==> e in m'.Keys;
  }

  /** The entry leaves the cache; clients may still hold it. */
  function Uncached(m: Memory, e: nat): Memory
    requires e in m
  {
    m[e := m[e].(inCache := false)]
  }

  /** The entry without the cache's reference, or gone with it. */
  function Erased(m: Memory, e: nat): Memory
    requires e in m && m[e].refs > 0
  {
    if m[e].refs == 1 then m - {e} else m[e := m[e].(inCache := false, refs := m[e].refs - 1)]
  }

  lemma ErasedOthers(m: Memory, e: nat, x: nat)
    requires e in m && m[e].refs > 0 && x in m && x != e
    ensures x in Erased(m, e) && Erased(m, e)[x] == m[x]
  {}

  lemma UncachedListed(m: Memory, lru: seq<nat>, inUse: seq<nat>, e: nat)
    requires Listed(m, lru, inUse) && e in m
    ensures Listed(Uncached(m, e), Without(lru, e), Without(inUse, e))
  {
    WithoutMembers(lru, e);
    WithoutMembers(inUse, e);
  }

  lemma UncachedCounted(m: Memory, held: map<nat, nat>, e: nat)
    requires Counted(m, held, None) && e in m && m[e].inCache
    ensures Counted(Uncached(m, e), held, Some(e))
  {}

  lemma UncachedCharged(m: Memory, lru: seq<nat>, inUse: seq<nat>, usage: nat, e: nat)
    requires Listed(m, lru, inUse) && Charged(m, lru, inUse, usage) && e in m && m[e].inCache && m[e].refs > 0
    ensures usage >= m[e].charge && Charged(m, Without(lru, e), Without(inUse, e), usage - m[e].charge)
  {
    if m[e].refs == 1 {
      ChargesWithout(m, lru, e);
      WithoutAbsent(inUse, e);
    } else {
      ChargesWithout(m, inUse, e);
      WithoutAbsent(lru, e);
    }
  }

  lemma UncachedTabled(m: Memory, contents: map<Bytes, nat>, hashOf: Bytes -> nat, e: nat)
    requires Tabled(m, contents, hashOf, Some(e)) && e in m
    ensures Tabled(Uncached(m, e), contents, hashOf, None)
  {}

  lemma TabledSame(m: Memory, m': Memory, contents: map<Bytes, nat>, hashOf: Bytes -> nat, except: Option<nat>)
    requires Tabled(m, contents, hashOf, except)
    requires forall e :: e in m' ==>
             e in m && m'[e].inCache == m[e].inCache && m'[e].key == m[e].key && m'[e].hash == m[e].hash
    requires forall e :: e in m && m[e].inCache ==> e in m'
    ensures Tabled(m', contents, hashOf, except)
  {}

  ghost predicate Ok(m: Memory, lru: seq<nat>, inUse: seq<nat>, usage: nat, held: map<nat, nat>, extra: Option<nat>,
                     deleted: seq<nat>, next: nat, contents: map<Bytes, nat>, hashOf: Bytes -> nat, except: Option<nat>)
  {
    && Listed(m, lru, inUse) && Charged(m, lru, inUse, usage)
    && Counted(m, held, extra) && DeletedOnce(m, deleted, next)
    && Tabled(m, contents, hashOf, except)
  }

  lemma RefOk(m: Memory, lru: seq<nat>, inUse: seq<nat>, usage: nat, held: map<nat, nat>,
              deleted: seq<nat>, next: nat, contents: map<Bytes, nat>, hashOf: Bytes -> nat, e: nat)
    requires Ok(m, lru, inUse, usage, held, None, deleted, next, contents, hashOf, None) && e in m
    ensures m[e].refs > 0
    ensures if m[e].refs == 1 && m[e].inCache
            then Ok(Referenced(m, e), Without(lru, e), inUse + [e], usage, held, Some(e), deleted, next, contents,
              hashOf, None)
            else Ok(Referenced(m, e), lru, inUse, usage, held, Some(e), deleted, next, contents, hashOf, None)
  {
    hide Listed, Charged, Counted, DeletedOnce, Tabled;
    var m' := Referenced(m, e);
    PositiveRefs(m, held, None, e);
    RefListed(m, lru, inUse, e);
    RefCounted(m, held, e);
    ListedParts(m, lru, inUse);
    ChargedParts(m, lru, inUse, usage);
    SameDeleted(m, m', deleted, next);
    TabledSame(m, m', contents, hashOf, None);
    SameCharged(m, m', lru, inUse, usage);
    if m[e].refs == 1 && m[e].inCache { MoveCharged(m', lru, inUse, usage, e); }
  }

  /** The last reference goes. */
  lemma LastUnrefOk(m: Memory, lru: seq<nat>, inUse: seq<nat>, usage: nat, held: map<nat, nat>,
                    deleted: seq<nat>, next: nat, contents: map<Bytes, nat>, hashOf: Bytes -> nat, e: nat)
    requires Ok(m, lru, inUse, usage, held, Some(e), deleted, next, contents, hashOf, None) && e in m && m[e].refs == 1
    ensures !m[e].inCache && Ok(m - {e}, lru, inUse, usage, held, None, deleted + [e], next, contents, hashOf, None)
  {
    hide Listed, Charged, Counted, DeletedOnce, Tabled;
    UnrefCounted(m, held, e);
    DropListed(m, lru, inUse, e);
    DropDeleted(m, deleted, next, e);
    DropCharged(m, lru, inUse, usage, e);
    TabledSame(m, m - {e}, contents, hashOf, None);
  }

  lemma UnrefOk(m: Memory, lru: seq<nat>, inUse: seq<nat>, usage: nat, held: map<nat, nat>,
                deleted: seq<nat>, next: nat, contents: map<Bytes, nat>, hashOf: Bytes -> nat, e: nat)
    requires Ok(m, lru, inUse, usage, held, Some(e), deleted, next, contents, hashOf, None) && e in m && m[e].refs > 1
    ensures if m[e].inCache && m[e].refs == 2
            then Ok(Released(m, e), lru + [e], Without(inUse, e), usage, held, None, deleted, next, contents, hashOf,
              None)
            else Ok(Released(m, e), lru, inUse, usage, held, None, deleted, next, contents, hashOf, None)
  {
    hide Listed, Charged, Counted, DeletedOnce, Tabled;
    var m' := Released(m, e);
    UnrefCounted(m, held, e);
    UnrefListed(m, lru, inUse, e);
    ListedParts(m, lru, inUse);
    ChargedParts(m, lru, inUse, usage);
    SameDeleted(m, m', deleted, next);
    TabledSame(m, m', contents, hashOf, None);
    SameCharged(m, m', lru, inUse, usage);
    if m[e].inCache && m[e].refs == 2 {
      SwapCharged(m', lru, inUse, usage);
      MoveCharged(m', inUse, lru, usage, e);
      SwapCharged(m', Without(inUse, e), lru + [e], usage);
    }
  }

  lemma UncachedOk(m: Memory, lru: seq<nat>, inUse: seq<nat>, usage: nat, held: map<nat, nat>,
                   deleted: seq<nat>, next: nat, contents: map<Bytes, nat>, hashOf: Bytes -> nat, e: nat)
    requires Ok(m, lru, inUse, usage, held, None, deleted, next, contents, hashOf, Some(e)) && e in m && m[e].inCache
    ensures usage >= m[e].charge
    ensures Ok(Uncached(m, e), Without(lru, e), Without(inUse, e), usage - m[e].charge, held, Some(e), deleted, next,
            contents, hashOf, None)
  {
    hide Listed, Charged, Counted, DeletedOnce, Tabled;
    var m' := Uncached(m, e);
    PositiveRefs(m, held, None, e);
    UncachedListed(m, lru, inUse, e);
    UncachedCounted(m, held, e);
    UncachedCharged(m, lru, inUse, usage, e);
    UncachedTabled(m, contents, hashOf, e);
    ChargedParts(m, Without(lru, e), Without(inUse, e), usage - m[e].charge);
    SameCharged(m, m', Without(lru, e), Without(inUse, e), usage - m[e].charge);
    SameDeleted(m, m', deleted, next);
  }

  lemma NewOk(m: Memory, lru: seq<nat>, inUse: seq<nat>, usage: nat, held: map<nat, nat>,
              deleted: seq<nat>, e: nat, contents: map<Bytes, nat>, hashOf: Bytes -> nat, n: Node)
    requires Ok(m, lru, inUse, usage, held, None, deleted, e, contents, hashOf, None)
    requires n.refs == (if n.inCache then 2 else 1) && n.hash == hashOf(n.key)
    ensures !n.inCache ==> Ok(m[e := n], lru, inUse, usage, held[e := 1], None, deleted, e + 1, contents, hashOf, None)
    ensures var before := if n.key in contents then Some(contents[n.key]) else None;
            n.inCache ==>
              && Ok(m[e := n], lru, inUse + [e], usage + n.charge, held[e := 1], None, deleted, e + 1,
                 contents[n.key := e], hashOf, before)
              && (before.Some? ==> before.value in m && before.value != e && m[before.value].inCache)
  {
    hide Listed, Charged, Counted, DeletedOnce, Tabled;
    NewHandle(m, lru, inUse, usage, held, deleted, e, n);
    if n.inCache { TabledInserted(m, contents, hashOf, n.key, e, n); }
      else { TabledUncached(m, contents, hashOf, e, n); }
  }

  lemma CachedOk(m: Memory, lru: seq<nat>, inUse: seq<nat>, usage: nat, held: map<nat, nat>,
                 deleted: seq<nat>, next: nat, contents: map<Bytes, nat>, hashOf: Bytes -> nat, k: Bytes)
    requires Ok(m, lru, inUse, usage, held, None, deleted, next, contents, hashOf, None) && k in contents
    ensures contents[k] in m && m[contents[k]].inCache && m[contents[k]].key == k
    ensures Ok(m, lru, inUse, usage, held, None, deleted, next, contents - {k}, hashOf, Some(contents[k]))
  {
    hide Listed, Charged, Counted, DeletedOnce;
  }

  /** The oldest entry that nobody holds. */
  lemma OldestOk(m: Memory, lru: seq<nat>, inUse: seq<nat>, usage: nat, held: map<nat, nat>,
                 deleted: seq<nat>, next: nat, contents: map<Bytes, nat>, hashOf: Bytes -> nat)
    requires Ok(m, lru, inUse, usage, held, None, deleted, next, contents, hashOf, None) && lru != []
    ensures var h := lru[0];
            && h in m && m[h].refs == 1 && m[h].inCache && m[h].hash == hashOf(m[h].key)
            && m[h].key in contents && contents[m[h].key] == h && Without(lru, h) == lru[1..]
            && forall k :: k in contents ==> (contents[k] == h <==> k == m[h].key)
  {
    hide Charged, Counted, DeletedOnce, NoTwice;
    assert lru[0] in lru;
  }

  /** What an insertion has evicted so far: the oldest entries, and nothing else has changed. */
  ghost predicate Evicting(m1: Memory, lru1: seq<nat>, contents1: map<Bytes, nat>,
                           m: Memory, lru: seq<nat>, contents: map<Bytes, nat>, evicted: seq<nat>)
  {
    && evicted + lru == lru1
    && (forall x :: x in lru ==> x in m && x in m1 && m[x] == m1[x])
    && (forall x :: x in evicted ==> x in m1)
    && (forall k :: k in contents <==> k in contents1 && contents1[k] !in evicted)
    && (forall k :: k in contents ==> contents[k] == contents1[k])
  }

  lemma EvictOne(m1: Memory, lru1: seq<nat>, contents1: map<Bytes, nat>,
                 m: Memory, lru: seq<nat>, contents: map<Bytes, nat>, evicted: seq<nat>)
    requires Evicting(m1, lru1, contents1, m, lru, contents, evicted) && lru != [] && NoTwice(lru1)
    requires forall k :: k in contents ==> (contents[k] == lru[0] <==> k == m[lru[0]].key)
    ensures Evicting(m1, lru1, contents1, m - {lru[0]}, lru[1..], contents - {m[lru[0]].key}, evicted + [lru[0]])
  {
    var h := lru[0];
    assert lru1[|evicted|] == h;
    forall x | x in lru[1..] ensures x != h && x in lru {
      var i :| 0 <= i < |lru[1..]| && lru[1..][i] == x;
      assert lru1[|evicted| + 1 + i] == x;
    }
  }

  lemma LruNoTwice(m: Memory, lru: seq<nat>, inUse: seq<nat>, usage: nat, held: map<nat, nat>, extra: Option<nat>,
                   deleted: seq<nat>, next: nat, contents: map<Bytes, nat>, hashOf: Bytes -> nat, except: Option<nat>)
    requires Ok(m, lru, inUse, usage, held, extra, deleted, next, contents, hashOf, except)
    ensures NoTwice(lru) && forall x :: x in lru ==> x in m && x < next
  {}

  /** The list of unreferenced entries when an entry of the key has been replaced. */
  function LeftOf(lru: seq<nat>, contents: map<Bytes, nat>, key: Bytes, capacity: nat): seq<nat> {
    if capacity > 0 && key in contents then Without(lru, contents[key]) else lru
  }

  lemma NothingEvicted(m: Memory, lru: seq<nat>, contents: map<Bytes, nat>)
    requires forall x :: x in lru ==> x in m
    ensures Evicting(m, lru, contents, m, lru, contents, [])
  {}

  lemma SameAtHead(m1: Memory, lru1: seq<nat>, contents1: map<Bytes, nat>,
                   m: Memory, lru: seq<nat>, contents: map<Bytes, nat>, evicted: seq<nat>)
    requires Evicting(m1, lru1, contents1, m, lru, contents, evicted) && lru != []
    ensures lru[0] in m && lru[0] in m1 && m[lru[0]] == m1[lru[0]]
  {}

  lemma EvictedAll(m1: Memory, lru1: seq<nat>, contents1: map<Bytes, nat>,
                   m: Memory, lru: seq<nat>, contents: map<Bytes, nat>, evicted: seq<nat>)
    requires Evicting(m1, lru1, contents1, m, lru, contents, evicted)
    ensures evicted + lru == lru1 && (forall x :: x in evicted ==> x in m1 && x in lru1)
    ensures forall k :: k in contents <==> k in contents1 && contents1[k] !in evicted
    ensures forall k :: k in contents ==> contents[k] == contents1[k]
  {}

  class LRUCache {
    var capacity: nat
    var usage: nat
    var memory: Memory
    var lru: seq<nat>
    var inUse: seq<nat>
    const table: HandleTable
    var next: nat
    ghost var held: map<nat, nat>
    ghost var deleted: seq<nat>

    /** `extra` is a handle with a reference more than its holders, `except` one that is cached
        but no longer in the table. */
    ghost predicate State(extra: Option<nat>, except: Option<nat>)
      reads this, table
    {
      table.Valid() && Ok(memory, lru, inUse, usage, held, extra, deleted, next, table.contents, table.hashOf, except)
    }

    ghost predicate Valid()
      reads this, table
    {
      State(None, None)
    }

    constructor (hashOf: Bytes -> nat)
      ensures Valid() && fresh(table) && capacity == 0 && table.contents == map[] && held == map[]
              && table.hashOf == hashOf
    {
      capacity, usage, memory, lru, inUse, next, held, deleted := 0, 0, map[], [], [], 0, map[], [];
      table := new HandleTable(hashOf);
    }

    method SetCapacity(capacity: nat)
      requires Valid()
      modifies `capacity
      ensures Valid() && this.capacity == capacity
    {
      this.capacity := capacity;
    }

    method Ref(e: nat)
      requires Valid() && e in memory
      modifies `memory, `lru, `inUse
      ensures State(Some(e), None) && memory == Referenced(old(memory), e)
      ensures lru == if old(memory[e].refs == 1 && memory[e].inCache) then Without(old(lru), e) else old(lru)
    {
      hide Ok;
      RefOk(memory, lru, inUse, usage, held, deleted, next, table.contents, table.hashOf, e);
      if memory[e].refs == 1 && memory[e].inCache {
        lru := Without(lru, e);
        inUse := inUse + [e];
      }
      memory := memory[e := memory[e].(refs := memory[e].refs + 1)];
    }

    /** The deleter runs when the last reference goes. */
    method Unref(e: nat)
      requires State(Some(e), None) && e in memory && memory[e].refs > 0
      modifies `memory, `lru, `inUse, `deleted
      ensures Valid()
      ensures if old(memory[e].refs) == 1 then memory == old(memory) - {e} && deleted == old(deleted) + [e]
              else memory == Released(old(memory), e) && deleted == old(deleted)
      ensures lru == if old(memory[e].inCache && memory[e].refs == 2) then old(lru) + [e] else old(lru)
    {
      hide Ok;
      var n := memory[e].(refs := memory[e].refs - 1);
      if n.refs == 0 {
        LastUnrefOk(memory, lru, inUse, usage, held, deleted, next, table.contents, table.hashOf, e);
        memory := memory - {e};
        deleted := deleted + [e];
      } else {
        UnrefOk(memory, lru, inUse, usage, held, deleted, next, table.contents, table.hashOf, e);
        if n.inCache && n.refs == 1 {
          inUse := Without(inUse, e);
          lru := lru + [e];
        }
        memory := memory[e := n];
      }
    }

    /** Finishes taking an entry out of the cache; it is no longer in the table. */
    method FinishErase(e: Option<nat>) returns (erased: bool)
      requires State(None, e) && (e.Some? ==> e.value in memory && memory[e.value].inCache)
      modifies `memory, `lru, `inUse, `deleted, `usage
      ensures Valid() && erased == e.Some?
      ensures e.None? ==> memory == old(memory) && lru == old(lru) && usage == old(usage) && deleted == old(deleted)
      ensures e.Some? ==>
                && usage == old(usage - memory[e.value].charge) && lru == Without(old(lru), e.value)
                && old(memory[e.value].refs > 0) && memory == Erased(old(memory), e.value)
                && deleted == if old(memory[e.value].refs) == 1 then old(deleted) + [e.value] else old(deleted)
    {
      hide Ok, HandleTable.Valid;
      if e.Some? {
        var h := e.value;
        UncachedOk(memory, lru, inUse, usage, held, deleted, next, table.contents, table.hashOf, h);
        CountedPositive(memory, lru, inUse, usage, held, None, deleted, next, table.contents, table.hashOf, e, h);
        lru := Without(lru, h);
        inUse := Without(inUse, h);
        usage := usage - memory[h].charge;
        memory := memory[h := memory[h].(inCache := false)];
        Unref(h);
      }
      erased := e.Some?;
    }

    /** The handle cached under the key; the client then holds it. */
    method Lookup(key: Bytes, hash: nat) returns (r: Option<nat>)
      requires Valid() && hash == table.hashOf(key)
      modifies `memory, `lru, `inUse, `held
      ensures Valid() && r == (if key in table.contents then Some(table.contents[key]) else None)
      ensures r.Some? ==>
              && r.value in memory && memory[r.value].key == key
              && held == old(held)[r.value := Held(old(held), r.value) + 1]
      ensures r.Some? ==> r.value in old(memory) && memory == Referenced(old(memory), r.value)
      ensures r.Some? ==> lru == if old(memory)[r.value].refs == 1 then Without(old(lru), r.value) else old(lru)
      ensures r.None? ==> memory == old(memory) && held == old(held) && lru == old(lru)
    {
      hide Ok, HandleTable.Valid;
      r := table.Lookup(key, hash);
      if r.Some? {
        CachedOk(memory, lru, inUse, usage, held, deleted, next, table.contents, table.hashOf, key);
        Ref(r.value);
        HeldMoreOk(memory, lru, inUse, usage, held, deleted, next, table.contents, table.hashOf, r.value);
        held := held[r.value := Held(held, r.value) + 1];
      }
    }

    method Release(e: nat)
      requires Valid() && e in held && held[e] > 0
      modifies `memory, `lru, `inUse, `deleted, `held
      ensures Valid() && held == old(held)[e := old(held)[e] - 1]
      ensures old(e in memory)
      ensures if old(memory[e].refs) == 1 then deleted == old(deleted) + [e] && memory == old(memory) - {e}
              else deleted == old(deleted) && old(memory[e].refs > 0) && memory == Released(old(memory), e)
      ensures lru == if old(memory[e].inCache && memory[e].refs == 2) then old(lru) + [e] else old(lru)
    {
      hide Ok;
      HeldLessOk(memory, lru, inUse, usage, held, deleted, next, table.contents, table.hashOf, e);
      held := held[e := held[e] - 1];
      Unref(e);
    }

    method Erase(key: Bytes, hash: nat)
      requires Valid() && hash == table.hashOf(key)
      modifies `memory, `lru, `inUse, `deleted, `usage, table
      ensures Valid() && table.contents == old(table.contents) - {key} && held == old(held)
      ensures old(key in table.contents) ==>
                && old(table.contents[key] in memory && memory[table.contents[key]].refs > 0)
                && memory == Erased(old(memory), old(table.contents[key]))
                   && lru == Without(old(lru), old(table.contents[key]))
      ensures old(key !in table.contents) ==> memory == old(memory) && lru == old(lru)
    {
      hide Ok, Erased, HandleTable.Valid;
      ghost var contents := table.contents;
      if key in contents {
        CachedOk(memory, lru, inUse, usage, held, deleted, next, contents, table.hashOf, key);
      } else {
        assert contents - {key} == contents;
      }
      var e := table.Remove(key, hash);
      var erased := FinishErase(e);
    }

    /** Evicts the oldest entry that nobody holds. */
    method EvictOldest()
      requires Valid() && lru != []
      modifies `memory, `lru, `inUse, `deleted, `usage, table
      ensures Valid() && held == old(held) && lru == old(lru)[1..]
      ensures old(lru[0] in memory && memory[lru[0]].key in table.contents
              && table.contents[memory[lru[0]].key] == lru[0])
      ensures old(memory[lru[0]].refs == 1 && memory[lru[0]].inCache)
              && table.contents == old(table.contents) - {old(memory[lru[0]].key)}
      ensures deleted == old(deleted) + [old(lru[0])] && memory == old(memory) - {old(lru[0])}
      ensures usage == old(usage - memory[lru[0]].charge)
      ensures forall k :: k in old(table.contents) ==>
              (old(table.contents)[k] == old(lru[0]) <==> k == old(memory[lru[0]].key))
    {
      hide Ok, HandleTable.Valid;
      var h := lru[0];
      ghost var contents := table.contents;
      OldestOk(memory, lru, inUse, usage, held, deleted, next, contents, table.hashOf);
      var n := memory[h];
      CachedOk(memory, lru, inUse, usage, held, deleted, next, contents, table.hashOf, n.key);
      var e := table.Remove(n.key, n.hash);
      var erased := FinishErase(e);
    }

    /** Every entry that nobody holds goes, and no other. */
    method Prune()
      requires Valid()
      modifies `memory, `lru, `inUse, `deleted, `usage, table
      ensures Valid() && lru == [] && held == old(held) && deleted == old(deleted) + old(lru)
      ensures forall k :: k in table.contents <==> k in old(table.contents) && old(table.contents)[k] !in old(lru)
      ensures forall k :: k in table.contents ==> table.contents[k] == old(table.contents)[k]
    {
      hide Ok, Evicting, NoTwice;
      LruNoTwice(memory, lru, inUse, usage, held, None, deleted, next, table.contents, table.hashOf, None);
      ghost var evicted := [];
      NothingEvicted(memory, lru, table.contents);
      while lru != []
        invariant Valid() && held == old(held) && deleted == old(deleted) + evicted
        invariant Evicting(old(memory), old(lru), old(table.contents), memory, lru, table.contents, evicted)
        decreases |lru|
      {
        ghost var m0, lru0, contents0 := memory, lru, table.contents;
        EvictOldest();
        EvictOne(old(memory), old(lru), old(table.contents), m0, lru0, contents0, evicted);
        evicted := evicted + [lru0[0]];
      }
      EvictedAll(old(memory), old(lru), old(table.contents), memory, lru, table.contents, evicted);
      assert evicted == old(lru);
    }

    /** Caches a new entry, which its client then holds, in place of the one under the same key;
        entries that nobody holds go, oldest first, and no more of them than it takes for the
        charges to fit. */
    method Insert(key: Bytes, hash: nat, value: nat, charge: nat) returns (e: nat, ghost evicted: seq<nat>)
      requires Valid() && hash == table.hashOf(key)
      modifies this, table
      ensures Valid() && e == old(next) && next == old(next) + 1 && capacity == old(capacity)
      ensures held == old(held)[e := 1] && e in memory
      ensures memory[e] == Node(key, hash, value, charge, if capacity > 0 then 2 else 1, capacity > 0)
      ensures usage <= capacity || lru == []
      ensures evicted + lru == LeftOf(old(lru), old(table.contents), key, capacity)
      ensures forall x :: x in evicted ==> x in old(memory)
      ensures evicted != [] ==> usage + old(memory)[evicted[|evicted| - 1]].charge > capacity
      ensures capacity > 0 ==> key in table.contents && table.contents[key] == e
      ensures forall k :: k != key || capacity == 0 ==>
                (k in table.contents <==> k in old(table.contents) && old(table.contents)[k] !in evicted)
      ensures forall k :: k in table.contents && (k != key || capacity == 0) ==>
              table.contents[k] == old(table.contents)[k]
    {
      hide State, Evicting, NoTwice, LeftOf;
      InsertNode(key, hash, value, charge);
      e := next - 1;
      ghost var m1, lru1, contents1 := memory, lru, table.contents;
      evicted := EvictToFit(e);
      EvictedAll(m1, lru1, contents1, memory, lru, table.contents, evicted);
    }

    /** Evicts the oldest entries until the charges fit; `e` is not one of them. */
    method EvictToFit(ghost e: nat) returns (ghost evicted: seq<nat>)
      requires Valid() && NoTwice(lru) && e !in lru && e in memory && forall x :: x in lru ==> x in memory
      modifies `memory, `lru, `inUse, `deleted, `usage, table
      ensures Valid() && held == old(held) && e in memory && memory[e] == old(memory)[e]
      ensures usage <= capacity || lru == []
      ensures Evicting(old(memory), old(lru), old(table.contents), memory, lru, table.contents, evicted)
      ensures evicted != [] ==>
              evicted[|evicted| - 1] in old(memory) && usage + old(memory)[evicted[|evicted| - 1]].charge > capacity
      ensures deleted == old(deleted) + evicted
    {
      hide State, Evicting, NoTwice;
      evicted := [];
      NothingEvicted(memory, lru, table.contents);
      while usage > capacity && lru != []
        invariant Valid() && held == old(held) && e !in lru && e in memory && memory[e] == old(memory)[e]
        invariant Evicting(old(memory), old(lru), old(table.contents), memory, lru, table.contents, evicted)
        invariant evicted != [] ==>
                  evicted[|evicted| - 1] in old(memory) && usage + old(memory)[evicted[|evicted| - 1]].charge > capacity
        invariant deleted == old(deleted) + evicted
        decreases |lru|
      {
        ghost var m0, lru0, contents0 := memory, lru, table.contents;
        SameAtHead(old(memory), old(lru), old(table.contents), m0, lru0, contents0, evicted);
        EvictOldest();
        EvictOne(old(memory), old(lru), old(table.contents), m0, lru0, contents0, evicted);
        evicted := evicted + [lru0[0]];
      }
    }

    /** The new entry, and the old one under its key gone. */
    method InsertNode(key: Bytes, hash: nat, value: nat, charge: nat)
      requires Valid() && hash == table.hashOf(key)
      modifies this, table
      ensures Valid() && next == old(next) + 1 && capacity == old(capacity) && held == old(held)[old(next) := 1]
      ensures old(next) in memory
      ensures memory[old(next)] == Node(key, hash, value, charge, if capacity > 0 then 2 else 1, capacity > 0)
      ensures table.contents == if capacity > 0 then old(table.contents)[key := old(next)] else old(table.contents)
      ensures lru == LeftOf(old(lru), old(table.contents), key, capacity) && NoTwice(lru) && old(next) !in lru
      ensures forall x :: x in lru ==> x in memory && x in old(memory) && memory[x] == old(memory)[x]
    {
      hide Ok, Erased, HandleTable.Valid, NoTwice;
      LruNoTwice(memory, lru, inUse, usage, held, None, deleted, next, table.contents, table.hashOf, None);
      if capacity > 0 {
        ghost var lru0 := lru;
        var before := AddToCache(Node(key, hash, value, charge, 2, true));
        ghost var m, e := memory, next - 1;
        var erased := FinishErase(before);
        if before.Some? {
          WithoutMembers(lru0, before.value);
          ErasedOthers(m, before.value, e);
          forall x | x in lru ensures x in memory && memory[x] == m[x] { ErasedOthers(m, before.value, x); }
        }
      } else {
        var n := Node(key, hash, value, charge, 1, false);
        NewOk(memory, lru, inUse, usage, held, deleted, next, table.contents, table.hashOf, n);
        memory := memory[next := n];
        held := held[next := 1];
        next := next + 1;
      }
    }

    /** A new entry in the table and on the in-use list; the one it replaces is still there. */
    method AddToCache(n: Node) returns (before: Option<nat>)
      requires Valid() && n.hash == table.hashOf(n.key) && n.refs == 2 && n.inCache
      modifies this, table
      ensures State(None, before) && next == old(next) + 1 && capacity == old(capacity)
              && held == old(held)[old(next) := 1]
      ensures memory == old(memory)[old(next) := n] && table.contents == old(table.contents)[n.key := old(next)]
      ensures before.Some? ==> before.value in memory && before.value != old(next) && memory[before.value].inCache
      ensures lru == old(lru) && before == if n.key in old(table.contents) then Some(old(table.contents)[n.key])
              else None
    {
      hide Ok, HandleTable.Valid;
      var e := next;
      NewOk(memory, lru, inUse, usage, held, deleted, e, table.contents, table.hashOf, n);
      before := table.Insert(n.key, n.hash, e);
      next := next + 1;
      held := held[e := 1];
      memory := memory[e := n];
      inUse := inUse + [e];
      usage := usage + n.charge;
    }
  }

  lemma CountedPositive(m: Memory, lru: seq<nat>, inUse: seq<nat>, usage: nat, held: map<nat, nat>, extra: Option<nat>,
                        deleted: seq<nat>, next: nat, contents: map<Bytes, nat>, hashOf: Bytes -> nat,
                          except: Option<nat>, e: nat)
    requires Ok(m, lru, inUse, usage, held, extra, deleted, next, contents, hashOf, except) && e in m
    ensures m[e].refs > 0
  {
    hide Listed, Charged, DeletedOnce, Tabled;
  }

  lemma HeldMoreOk(m: Memory, lru: seq<nat>, inUse: seq<nat>, usage: nat, held: map<nat, nat>,
                   deleted: seq<nat>, next: nat, contents: map<Bytes, nat>, hashOf: Bytes -> nat, e: nat)
    requires Ok(m, lru, inUse, usage, held, Some(e), deleted, next, contents, hashOf, None)
    ensures Ok(m, lru, inUse, usage, held[e := Held(held, e) + 1], None, deleted, next, contents, hashOf, None)
  {
    hide Listed, Charged, Counted, DeletedOnce, Tabled;
    HeldMore(m, held, e);
  }

  lemma HeldLessOk(m: Memory, lru: seq<nat>, inUse: seq<nat>, usage: nat, held: map<nat, nat>,
                   deleted: seq<nat>, next: nat, contents: map<Bytes, nat>, hashOf: Bytes -> nat, e: nat)
    requires Ok(m, lru, inUse, usage, held, None, deleted, next, contents, hashOf, None) && e in held && held[e] > 0
    ensures e in m && m[e].refs > 0 && Ok(m, lru, inUse, usage, held[e := held[e] - 1], Some(e), deleted, next,
            contents, hashOf, None)
  {
    hide Listed, Charged, DeletedOnce, Tabled;
    HeldLess(m, held, e);
  }

  /** A handle that was never used before, with its client's reference and that of the cache. */
  lemma NewHandle(m: Memory, lru: seq<nat>, inUse: seq<nat>, usage: nat, held: map<nat, nat>, deleted: seq<nat>, e: nat,
                  n: Node)
    requires Listed(m, lru, inUse) && Charged(m, lru, inUse, usage) && Counted(m, held, None)
             && DeletedOnce(m, deleted, e)
    requires n.refs == if n.inCache then 2 else 1
    ensures e !in m && DeletedOnce(m[e := n], deleted, e + 1) && Counted(m[e := n], held[e := 1], None)
    ensures n.inCache ==> Listed(m[e := n], lru, inUse + [e]) && Charged(m[e := n], lru, inUse + [e], usage + n.charge)
    ensures !n.inCache ==> Listed(m[e := n], lru, inUse) && Charged(m[e := n], lru, inUse, usage)
  {
    var m' := m[e := n];
    NewListed(m, lru, inUse, e, n);
    SameCharged(m, m', lru, inUse, usage);
    ChargesAppend(m', inUse, e);
  }

  lemma NewListed(m: Memory, lru: seq<nat>, inUse: seq<nat>, e: nat, n: Node)
    requires Listed(m, lru, inUse) && e !in m && n.refs == if n.inCache then 2 else 1
    ensures if n.inCache then Listed(m[e := n], lru, inUse + [e]) else Listed(m[e := n], lru, inUse)
  {
    AppendMembers(inUse, e);
  }

  lemma TabledInserted(m: Memory, contents: map<Bytes, nat>, hashOf: Bytes -> nat, k: Bytes, e: nat, n: Node)
    requires Tabled(m, contents, hashOf, None) && e !in m && n.inCache && n.key == k && n.hash == hashOf(k)
    ensures var before := if k in contents then Some(contents[k]) else None;
            && Tabled(m[e := n], contents[k := e], hashOf, before)
            && (before.Some? ==> before.value in m && before.value != e && m[before.value].inCache)
  {}

  lemma TabledUncached(m: Memory, contents: map<Bytes, nat>, hashOf: Bytes -> nat, e: nat, n: Node)
    requires Tabled(m, contents, hashOf, None) && e !in m && !n.inCache
    ensures Tabled(m[e := n], contents, hashOf, None)
  {}

  lemma PositiveRefs(m: Memory, held: map<nat, nat>, extra: Option<nat>, e: nat)
    requires Counted(m, held, extra) && (e in m || extra == Some(e))
    ensures e in m && m[e].refs > 0
  {}

  lemma ListedParts(m: Memory, lru: seq<nat>, inUse: seq<nat>)
    requires Listed(m, lru, inUse)
    ensures NoTwice(lru) && NoTwice(inUse)
    ensures forall e :: e in lru <==> e in m && m[e].inCache && m[e].refs == 1
    ensures forall e :: e in inUse <==> e in m && m[e].inCache && m[e].refs >= 2
  {}

  lemma ChargedParts(m: Memory, lru: seq<nat>, inUse: seq<nat>, usage: nat)
    requires Charged(m, lru, inUse, usage)
    ensures (forall e :: e in lru ==> e in m) && (forall e :: e in inUse ==> e in m)
  {}

  lemma DropCharged(m: Memory, lru: seq<nat>, inUse: seq<nat>, usage: nat, e: nat)
    requires Charged(m, lru, inUse, usage) && Listed(m, lru, inUse) && e in m && !m[e].inCache
    ensures Charged(m - {e}, lru, inUse, usage)
  {
    SameCharged(m, m - {e}, lru, inUse, usage);
  }
}
