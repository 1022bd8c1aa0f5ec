/** Internal keys, entries and the meaning of a read at a sequence number. */
module InternalKeys {

  /** A user key is represented by its rank in the order of the user comparator.
      Every countable total order embeds in the reals; module `Bytewise` gives the
      embedding of byte strings under the default comparator and proves it. */
  type UserKey = real

  type Byte = x: int | 0 <= x < 256
  type Bytes = seq<Byte>

  const MAX_SEQUENCE: nat := 0xff_ffff_ffff_ffff

  datatype Option<+T> = None | Some(value: T)

  datatype ValueType = TypeDeletion | TypeValue {
    function Code(): nat { if TypeDeletion? then 0 else 1 }
  }

  datatype InternalKey = InternalKey(user: UserKey, sequence: nat, kind: ValueType) {
    /** The sequence number and the type packed in one integer. */
    function Tag(): nat { 256 * sequence + kind.Code() }
  }

  datatype Entry = Entry(key: InternalKey, value: Bytes)

  /** Increasing user key, then decreasing packed tag. */
  predicate Less(a: InternalKey, b: InternalKey) {
    a.user < b.user || (a.user == b.user && a.Tag() > b.Tag())
  }

  /** The key a lookup of `u` at sequence number `s` seeks to. */
  function SeekKey(u: UserKey, s: nat): InternalKey {
    InternalKey(u, s, TypeValue)
  }

  ghost predicate Sorted(es: seq<Entry>) {
    forall i, j :: 0 <= i < j < |es| ==> Less(es[i].key, es[j].key)
  }

  /** `e` is a version of user key `u` that a read at `s` may see. */
  predicate Candidate(e: Entry, u: UserKey, s: nat) {
    e.key.user == u && e.key.sequence <= s
  }

  /** `e` is the newest version of `u` that a read at `s` may see among `E`. */
  ghost predicate Newest(E: set<Entry>, u: UserKey, s: nat, e: Entry) {
    && e in E
    && Candidate(e, u, s)
    && forall x :: x in E && Candidate(x, u, s) ==> x.key.sequence <= e.key.sequence
  }

  /** No two different entries of `E` share user key and sequence number. */
  ghost predicate UniqueVersions(E: set<Entry>) {
    forall a, b :: a in E && b in E && a.key.user == b.key.user && a.key.sequence == b.key.sequence ==> a == b
  }

  function Payload(e: Entry): Option<Bytes> {
    if e.key.kind == TypeValue then Some(e.value) else None
  }

  /** What a read of `u` at `s` returns when the store holds exactly `E`. */
  ghost function Read(E: set<Entry>, u: UserKey, s: nat): Option<Bytes> {
    if exists e :: Newest(E, u, s, e) then
      var e :| Newest(E, u, s, e); Payload(e)
    else None
  }

  lemma ReadNewest(E: set<Entry>, u: UserKey, s: nat, e: Entry)
    requires UniqueVersions(E) && Newest(E, u, s, e)
    ensures Read(E, u, s) == Payload(e)
  {
    forall x | Newest(E, u, s, x) ensures x == e {
      assert x in E && e in E;
    }
  }

  lemma ReadNothing(E: set<Entry>, u: UserKey, s: nat)
    requires forall e :: e in E ==> !Candidate(e, u, s)
    ensures Read(E, u, s) == None
  {}

  /** As soon as one version is visible, some version is the newest one. */
  lemma {:induction false} NewestExists(E: set<Entry>, u: UserKey, s: nat, c: Entry) returns (e: Entry)
    requires c in E && Candidate(c, u, s)
    ensures Newest(E, u, s, e)
    decreases s - c.key.sequence
  {
    if x :| x in E && Candidate(x, u, s) && x.key.sequence > c.key.sequence {
      e := NewestExists(E, u, s, x);
    } else {
      e := c;
    }
  }

  /** Every version in `A` of a user key is newer than every version of it in `B`. */
  ghost predicate Newer(A: seq<Entry>, B: seq<Entry>) {
    forall a, b :: a in A && b in B && a.key.user == b.key.user ==> a.key.sequence > b.key.sequence
  }

  // ----- the history of a database as a simple map -----

  /** Writes in the order in which they were given their sequence numbers. */
  ghost predicate IsHistory(h: seq<Entry>) {
    forall i, j :: 0 <= i < j < |h| ==> h[i].key.sequence < h[j].key.sequence
  }

  function Apply(m: map<UserKey, Bytes>, e: Entry): map<UserKey, Bytes> {
    if e.key.kind == TypeValue then m[e.key.user := e.value] else m - {e.key.user}
  }

  /** The plain map obtained by performing, in order, the writes of `h` up to sequence number `s`. */
  function MapAt(h: seq<Entry>, s: nat): map<UserKey, Bytes> {
    if h == [] then map[]
    else
      var m := MapAt(h[..|h|-1], s);
      var e := h[|h|-1];
      if e.key.sequence <= s then Apply(m, e) else m
  }

  function Lookup(m: map<UserKey, Bytes>, u: UserKey): Option<Bytes> {
    if u in m then Some(m[u]) else None
  }

  function Elements(h: seq<Entry>): (E: set<Entry>)
    ensures forall e :: e in E <==> e in h
  {
    set e | e in h
  }

  lemma HistoryUnique(h: seq<Entry>)
    requires IsHistory(h)
    ensures UniqueVersions(Elements(h))
  {
    forall a, b | a in Elements(h) && b in Elements(h) && a.key.sequence == b.key.sequence ensures a == b {
      var i :| 0 <= i < |h| && h[i] == a;
      var j :| 0 <= j < |h| && h[j] == b;
    }
  }

  /** Adding the newest write changes a read only if the read may see it. */
  lemma ReadAfterWrite(g: seq<Entry>, e: Entry, u: UserKey, s: nat)
    requires IsHistory(g + [e])
    ensures Read(Elements(g + [e]), u, s) == if Candidate(e, u, s) then Payload(e) else Read(Elements(g), u, s)
  {
    var G, H := Elements(g), Elements(g + [e]);
    HistoryUnique(g + [e]);
    assert IsHistory(g) by { assert forall i :: 0 <= i < |g| ==> (g + [e])[i] == g[i]; }
    HistoryUnique(g);
    if Candidate(e, u, s) {
      assert Newest(H, u, s, e) by {
        forall x | x in H && Candidate(x, u, s) ensures x.key.sequence <= e.key.sequence {
          var i :| 0 <= i < |g + [e]| && (g + [e])[i] == x;
          assert (g + [e])[|g|] == e;
        }
      }
      ReadNewest(H, u, s, e);
    } else if c :| c in g && Candidate(c, u, s) {
      var n := NewestExists(G, u, s, c);
      assert Newest(H, u, s, n);
      ReadNewest(G, u, s, n);
      ReadNewest(H, u, s, n);
    } else {
      ReadNothing(G, u, s);
      ReadNothing(H, u, s);
    }
  }

  /** Reading the newest visible version is looking the key up in the map that
      performing the writes one after the other produces. */
  lemma {:induction false} ReadIsMapLookup(h: seq<Entry>, u: UserKey, s: nat)
    requires IsHistory(h)
    ensures Read(Elements(h), u, s) == Lookup(MapAt(h, s), u)
  {
    hide Read, Lookup, MapAt, Payload, Candidate;
    if h == [] {
      ReadNothing(Elements(h), u, s);
      LookupNothing(u, s);
    } else {
      var g, e := h[..|h|-1], h[|h|-1];
      assert h == g + [e];
      ReadIsMapLookup(g, u, s);
      ReadAfterWrite(g, e, u, s);
      LookupAfterWrite(g, e, u, s);
    }
  }

  lemma LookupNothing(u: UserKey, s: nat)
    ensures Lookup(MapAt([], s), u) == None
  {}

  lemma LookupAfterWrite(g: seq<Entry>, e: Entry, u: UserKey, s: nat)
    ensures Lookup(MapAt(g + [e], s), u) == if Candidate(e, u, s) then Payload(e) else Lookup(MapAt(g, s), u)
  {
    assert (g + [e])[..|g|] == g;
  }
}
