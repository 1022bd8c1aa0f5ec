/** The iterator over a database: one entry per user key visible at a sequence number. */
module DbIterators {
  import opened InternalKeys
  import opened Cursors
  import opened MergingIterators

  // ----- what is visible -----

  /** Entry `i` is seen at `s`: it is a value and the newest version of its user key up to `s`. */
  ghost predicate Visible(all: seq<Entry>, s: nat, i: nat) {
    && i < |all| && all[i].key.sequence <= s && all[i].key.kind == TypeValue
    && forall j :: 0 <= j < i && all[j].key.user == all[i].key.user ==> all[j].key.sequence > s
  }

  /** `idx` lists the positions of the visible entries in order. */
  ghost predicate IsView(all: seq<Entry>, s: nat, idx: seq<nat>) {
    && (forall a, b :: 0 <= a < b < |idx| ==> idx[a] < idx[b])
    && (forall a :: 0 <= a < |idx| ==> Visible(all, s, idx[a]))
    && (forall i: nat :: Visible(all, s, i) ==> i in idx)
  }

  lemma UsersSorted(all: seq<Entry>, i: nat, j: nat)
    requires Sorted(all) && i <= j < |all|
    ensures all[i].key.user <= all[j].key.user
    ensures i < j && all[i].key.user == all[j].key.user ==> all[i].key.sequence >= all[j].key.sequence
  {
    if i < j { assert Less(all[i].key, all[j].key); }
  }

  lemma ViewUsersIncrease(all: seq<Entry>, s: nat, idx: seq<nat>)
    requires Sorted(all) && IsView(all, s, idx)
    ensures forall a, b :: 0 <= a < b < |idx| ==> idx[a] < idx[b] < |all| && all[idx[a]].key.user < all[idx[b]].key.user
  {
    forall a, b | 0 <= a < b < |idx| ensures all[idx[a]].key.user < all[idx[b]].key.user {
      assert Visible(all, s, idx[b]) && Visible(all, s, idx[a]);
      UsersSorted(all, idx[a], idx[b]);
    }
  }

  /** The view is the sorted map that reads at `s` give: a key is in it exactly when a read
      finds a value, and then with that value. */
  lemma ViewIsReads(all: seq<Entry>, s: nat, idx: seq<nat>, u: UserKey)
    requires Sorted(all) && UniqueVersions(Elements(all)) && IsView(all, s, idx)
    ensures Read(Elements(all), u, s).Some? <==> exists a :: 0 <= a < |idx| && all[idx[a]].key.user == u
    ensures forall a :: 0 <= a < |idx| && all[idx[a]].key.user == u ==>
            Read(Elements(all), u, s) == Some(all[idx[a]].value)
  {
    var E := Elements(all);
    forall a | 0 <= a < |idx| && all[idx[a]].key.user == u ensures Read(E, u, s) == Some(all[idx[a]].value) {
      assert Visible(all, s, idx[a]);
      VisibleIsNewest(all, s, idx[a]);
      ReadNewest(E, u, s, all[idx[a]]);
    }
    if Read(E, u, s).Some? {
      if c :| c in E && Candidate(c, u, s) {
        var e := NewestExists(E, u, s, c);
        ReadNewest(E, u, s, e);
        var i :| 0 <= i < |all| && all[i] == e;
        forall j | 0 <= j < i && all[j].key.user == u ensures all[j].key.sequence > s {
          UsersSorted(all, j, i);
          assert all[j] in E && Less(all[j].key, all[i].key);
        }
        assert Visible(all, s, i);
        var a :| 0 <= a < |idx| && idx[a] == i;
      } else {
        ReadNothing(E, u, s);
      }
    }
  }

  lemma VisibleIsNewest(all: seq<Entry>, s: nat, i: nat)
    requires Sorted(all) && Visible(all, s, i)
    ensures Newest(Elements(all), all[i].key.user, s, all[i])
  {
    forall x | x in Elements(all) && Candidate(x, all[i].key.user, s) ensures x.key.sequence <= all[i].key.sequence {
      var j :| 0 <= j < |all| && all[j] == x;
      if i < j { UsersSorted(all, i, j); }
    }
  }

  lemma {:induction false} ViewExists(all: seq<Entry>, s: nat, n: nat) returns (idx: seq<nat>)
    requires n <= |all|
    ensures forall a, b :: 0 <= a < b < |idx| ==> idx[a] < idx[b]
    ensures forall a :: 0 <= a < |idx| ==> idx[a] < n && Visible(all, s, idx[a])
    ensures forall i: nat :: i < n && Visible(all, s, i) ==> i in idx
  {
    if n == 0 {
      idx := [];
    } else {
      idx := ViewExists(all, s, n - 1);
      if Visible(all, s, n - 1) { idx := idx + [n - 1]; }
    }
  }

  // ----- entries that arrive later -----

  /** The entries that a view lists. */
  ghost function Listed(all: seq<Entry>, idx: seq<nat>): (r: seq<Entry>)
    requires forall a :: 0 <= a < |idx| ==> idx[a] < |all|
    ensures |r| == |idx| && forall a :: 0 <= a < |idx| ==> r[a] == all[idx[a]]
  {
    seq(|idx|, a requires 0 <= a < |idx| => all[idx[a]])
  }

  ghost predicate ByUser(es: seq<Entry>) {
    forall a, b :: 0 <= a < b < |es| ==> es[a].key.user < es[b].key.user
  }

  /** Two lists of the same entries in increasing order of user keys are the same. */
  lemma {:induction false} SameList(a: seq<Entry>, b: seq<Entry>)
    requires ByUser(a) && ByUser(b) && forall e :: e in a <==> e in b
    ensures a == b
  {
    if a == [] {
      EmptyOrFirst(b);
    } else {
      assert a[|a|-1] in b && b[|b|-1] in a;
      LastIsGreatest(a, b[|b|-1]);
      LastIsGreatest(b, a[|a|-1]);
      LastDropped(a);
      LastDropped(b);
      assert a[|a|-1] == b[|b|-1];
      var front, front' := a[..|a|-1], b[..|b|-1];
      forall e | e in front ensures e in front' { assert e in a && e in b; }
      forall e | e in front' ensures e in front { assert e in b && e in a; }
      SameList(front, front');
      assert a == front + [a[|a|-1]] && b == front' + [b[|b|-1]];
    }
  }

  lemma LastIsGreatest(a: seq<Entry>, e: Entry)
    requires ByUser(a) && e in a
    ensures e == a[|a|-1] || e.key.user < a[|a|-1].key.user
  {
    var i :| 0 <= i < |a| && a[i] == e;
  }

  lemma EmptyOrFirst(b: seq<Entry>)
    ensures b == [] || b[0] in b
  {}

  lemma LastDropped(a: seq<Entry>)
    requires a != [] && ByUser(a)
    ensures ByUser(a[..|a|-1]) && forall e :: e in a[..|a|-1] <==> e in a && e != a[|a|-1]
  {
    forall e | e in a && e != a[|a|-1] ensures e in a[..|a|-1] {
      var i :| 0 <= i < |a| && a[i] == e;
      assert a[..|a|-1][i] == e;
    }
  }

  lemma ViewInRange(all: seq<Entry>, s: nat, idx: seq<nat>)
    requires IsView(all, s, idx)
    ensures forall a :: 0 <= a < |idx| ==> idx[a] < |all|
  {
    forall a | 0 <= a < |idx| ensures idx[a] < |all| { assert Visible(all, s, idx[a]); }
  }

  /** `more` has the entries of `all`, and others written after `s`. */
  ghost predicate GrownAfter(all: seq<Entry>, more: seq<Entry>, s: nat) {
    (forall e :: e in all ==> e in more) && forall e :: e in more && e !in all ==> e.key.sequence > s
  }

  lemma NewerThanNewest(E: set<Entry>, u: UserKey, s: nat, e: Entry, x: Entry)
    requires Newest(E, u, s, e) && x.key.user == u && x.key.sequence > e.key.sequence
             && (x.key.sequence <= s ==> x in E)
    ensures x.key.sequence > s
  {}

  lemma StillVisible(all: seq<Entry>, more: seq<Entry>, s: nat, i: nat) returns (j: nat)
    requires Sorted(all) && Sorted(more) && Visible(all, s, i)
    requires forall e: Entry :: e.key.sequence <= s ==> (e in all <==> e in more)
    ensures Visible(more, s, j) && more[j] == all[i]
  {
    VisibleIsNewest(all, s, i);
    assert all[i] in more;
    j :| 0 <= j < |more| && more[j] == all[i];
    forall k | 0 <= k < j && more[k].key.user == all[i].key.user ensures more[k].key.sequence > s {
      UsersSorted(more, k, j);
      assert Less(more[k].key, more[j].key) && more[k] in more;
      NewerThanNewest(Elements(all), all[i].key.user, s, all[i], more[k]);
    }
  }

  lemma ListedStays(all: seq<Entry>, idx: seq<nat>, more: seq<Entry>, idx': seq<nat>, s: nat)
    requires Sorted(all) && Sorted(more) && IsView(all, s, idx) && IsView(more, s, idx')
    requires forall e: Entry :: e.key.sequence <= s ==> (e in all <==> e in more)
    requires (forall a :: 0 <= a < |idx| ==> idx[a] < |all|) && forall a :: 0 <= a < |idx'| ==> idx'[a] < |more|
    ensures forall e :: e in Listed(all, idx) ==> e in Listed(more, idx')
  {
    forall e | e in Listed(all, idx) ensures e in Listed(more, idx') {
      var a :| 0 <= a < |idx| && Listed(all, idx)[a] == e;
      var j := StillVisible(all, more, s, idx[a]);
      var b :| 0 <= b < |idx'| && idx'[b] == j;
      assert Listed(more, idx')[b] == e;
    }
  }

  /** Entries that arrive after the sequence number of an iterator change none of its positions:
      as many, in the same order, each with the same entry. */
  lemma LaterEntriesKeepView(all: seq<Entry>, idx: seq<nat>, more: seq<Entry>, idx': seq<nat>, s: nat)
    requires Sorted(all) && Sorted(more) && IsView(all, s, idx) && IsView(more, s, idx') && GrownAfter(all, more, s)
    ensures |idx| == |idx'| && forall a :: 0 <= a < |idx| ==>
            idx[a] < |all| && idx'[a] < |more| && all[idx[a]] == more[idx'[a]]
  {
    hide Visible, IsView;
    ViewInRange(all, s, idx);
    ViewInRange(more, s, idx');
    ViewUsersIncrease(all, s, idx);
    ViewUsersIncrease(more, s, idx');
    ListedStays(all, idx, more, idx', s);
    ListedStays(more, idx', all, idx, s);
    SameList(Listed(all, idx), Listed(more, idx'));
    assert forall a :: 0 <= a < |idx| ==> Listed(all, idx)[a] == Listed(more, idx')[a];
  }

  // ----- forward scans -----

  /** What a forward scan from `i` is to skip has been skipped: every older version of a key
      seen before `i` belongs to a user key up to `skip`. */
  ghost predicate Skips(all: seq<Entry>, s: nat, i: nat, skipping: bool, skip: UserKey) {
    && (forall j, k :: 0 <= j < i <= k < |all| && all[j].key.user == all[k].key.user && all[j].key.sequence <= s
          ==> skipping && all[j].key.user <= skip)
    && (skipping ==> forall k :: i <= k < |all| && all[k].key.sequence <= s ==> skip <= all[k].key.user)
  }

  /** Nothing to stop at between `from` and `i`. */
  ghost predicate NothingBetween(all: seq<Entry>, s: nat, from: nat, i: nat, skipping: bool, skip: UserKey) {
    forall k :: from <= k < i && Visible(all, s, k) ==> skipping && all[k].key.user <= skip
  }

  /** One entry further: a newer entry, a deletion, or a hidden value. */
  lemma ScanOne(all: seq<Entry>, s: nat, i: nat, skipping: bool, skip: UserKey)
    requires Sorted(all) && i < |all| && Skips(all, s, i, skipping, skip)
    ensures all[i].key.sequence > s ==> Skips(all, s, i + 1, skipping, skip) && !Visible(all, s, i)
    ensures all[i].key.sequence <= s && all[i].key.kind == TypeDeletion ==>
            Skips(all, s, i + 1, true, all[i].key.user) && !Visible(all, s, i)
    ensures all[i].key.sequence <= s && skipping && all[i].key.user <= skip ==> Skips(all, s, i + 1, skipping, skip)
    ensures all[i].key.sequence <= s && all[i].key.kind == TypeValue && !(skipping && all[i].key.user <= skip) ==>
            Visible(all, s, i)
  {
    forall k | i < k < |all| ensures all[i].key.user <= all[k].key.user { UsersSorted(all, i, k); }
    if all[i].key.sequence <= s && all[i].key.kind == TypeDeletion {
      forall j, k | 0 <= j < i + 1 <= k < |all| && all[j].key.user == all[k].key.user && all[j].key.sequence <= s
        ensures all[j].key.user <= all[i].key.user
      {
        UsersSorted(all, j, i);
      }
    }
  }

  /** Where the key to skip comes from: it was given, or it is that of a deletion passed. */
  ghost predicate SkipOrigin(all: seq<Entry>, s: nat, from: nat, i: nat, skipping0: bool, skip0: UserKey,
                             skipping: bool, skip: UserKey) {
    && (skipping0 ==> skipping && skip0 <= skip)
    && (skipping ==> (skipping0 && skip == skip0)
                     || exists d :: from <= d < i && d < |all| && all[d].key.user == skip && all[d].key.sequence <= s)
  }

  lemma HiddenIsInvisible(all: seq<Entry>, s: nat, from: nat, i: nat, skipping0: bool, skip0: UserKey, skipping: bool,
                          skip: UserKey)
    requires Sorted(all) && i < |all| && SkipOrigin(all, s, from, i, skipping0, skip0, skipping, skip)
    requires skipping && all[i].key.user <= skip && Visible(all, s, i)
    ensures skipping0 && all[i].key.user <= skip0
  {
    forall d: nat | from <= d < i && all[d].key.sequence <= s ensures all[d].key.user < all[i].key.user {
      UsersSorted(all, d, i);
    }
  }

  /** A forward scan that began at `from` has reached `i`. */
  ghost predicate Scanning(all: seq<Entry>, s: nat, from: nat, i: nat, skipping0: bool, skip0: UserKey, skipping: bool,
                           skip: UserKey) {
    && Skips(all, s, i, skipping, skip)
    && SkipOrigin(all, s, from, i, skipping0, skip0, skipping, skip)
    && NothingBetween(all, s, from, i, skipping0, skip0)
  }

  lemma ScanPastNewer(all: seq<Entry>, s: nat, from: nat, i: nat, skipping0: bool, skip0: UserKey, skipping: bool,
                      skip: UserKey)
    requires Sorted(all) && from <= i < |all| && Scanning(all, s, from, i, skipping0, skip0, skipping, skip)
    requires all[i].key.sequence > s
    ensures Scanning(all, s, from, i + 1, skipping0, skip0, skipping, skip)
  {
    ScanOne(all, s, i, skipping, skip);
  }

  lemma ScanPastDeletion(all: seq<Entry>, s: nat, from: nat, i: nat, skipping0: bool, skip0: UserKey, skipping: bool,
                         skip: UserKey)
    requires Sorted(all) && from <= i < |all| && Scanning(all, s, from, i, skipping0, skip0, skipping, skip)
    requires all[i].key.sequence <= s && all[i].key.kind == TypeDeletion
    ensures Scanning(all, s, from, i + 1, skipping0, skip0, true, all[i].key.user)
  {
    ScanOne(all, s, i, skipping, skip);
    OriginIsDeletion(all, s, from, i, skipping0, skip0, skipping, skip);
  }

  lemma OriginStays(all: seq<Entry>, s: nat, from: nat, i: nat, skipping0: bool, skip0: UserKey, skipping: bool,
                    skip: UserKey)
    requires SkipOrigin(all, s, from, i, skipping0, skip0, skipping, skip)
    ensures SkipOrigin(all, s, from, i + 1, skipping0, skip0, skipping, skip)
  {}

  lemma ScanPastHidden(all: seq<Entry>, s: nat, from: nat, i: nat, skipping0: bool, skip0: UserKey, skipping: bool,
                       skip: UserKey)
    requires Sorted(all) && from <= i < |all| && Scanning(all, s, from, i, skipping0, skip0, skipping, skip)
    requires all[i].key.sequence <= s && skipping && all[i].key.user <= skip
    ensures Scanning(all, s, from, i + 1, skipping0, skip0, skipping, skip)
  {
    hide Skips, SkipOrigin;
    ScanOne(all, s, i, skipping, skip);
    assert SkipOrigin(all, s, from, i + 1, skipping0, skip0, skipping, skip) by {
      OriginStays(all, s, from, i, skipping0, skip0, skipping, skip);
    }
    if Visible(all, s, i) {
      HiddenIsInvisible(all, s, from, i, skipping0, skip0, skipping, skip);
    }
  }

  lemma ScanStops(all: seq<Entry>, s: nat, from: nat, i: nat, skipping0: bool, skip0: UserKey, skipping: bool,
                  skip: UserKey)
    requires Sorted(all) && from <= i < |all| && Scanning(all, s, from, i, skipping0, skip0, skipping, skip)
    requires all[i].key.sequence <= s && all[i].key.kind == TypeValue && !(skipping && all[i].key.user <= skip)
    ensures Stopped(all, s, from, i, skipping0, skip0)
  {
    ScanOne(all, s, i, skipping, skip);
  }

  lemma OriginIsDeletion(all: seq<Entry>, s: nat, from: nat, i: nat, skipping0: bool, skip0: UserKey, skipping: bool,
                         skip: UserKey)
    requires Sorted(all) && from <= i < |all| && Scanning(all, s, from, i, skipping0, skip0, skipping, skip)
    requires all[i].key.sequence <= s
    ensures SkipOrigin(all, s, from, i + 1, skipping0, skip0, true, all[i].key.user)
  {}

  // ----- positions in the view -----

  /** Scanning forward from `from` past the user keys up to `skip` stopped at `i`. */
  ghost predicate Stopped(all: seq<Entry>, s: nat, from: nat, i: nat, skipping: bool, skip: UserKey) {
    && NothingBetween(all, s, from, i, skipping, skip)
    && i <= |all| && (i < |all| ==> Visible(all, s, i) && !(skipping && all[i].key.user <= skip))
  }

  lemma NextInView(all: seq<Entry>, s: nat, idx: seq<nat>, p: nat, from: nat, i: nat)
    requires Sorted(all) && IsView(all, s, idx) && p < |idx| && from <= idx[p] + 1
    requires from <= i && Stopped(all, s, from, i, true, all[idx[p]].key.user)
    ensures if p + 1 < |idx| then i == idx[p + 1] < |all| else i == |all|
  {
    ViewUsersIncrease(all, s, idx);
    if p + 1 < |idx| { assert Visible(all, s, idx[p + 1]); }
    if i < |all| {
      var a :| 0 <= a < |idx| && idx[a] == i;
      assert a > p;
    }
  }

  lemma SeekInView(all: seq<Entry>, s: nat, idx: seq<nat>, from: nat, i: nat) returns (p: nat)
    requires Sorted(all) && IsView(all, s, idx) && from <= i && Stopped(all, s, from, i, false, NO_KEY)
    ensures SplitsAt(idx, p, from - 1)
    ensures if i < |all| then p < |idx| && idx[p] == i else p == |idx|
  {
    if i < |all| {
      p :| 0 <= p < |idx| && idx[p] == i;
    } else {
      p := |idx|;
    }
    forall a | 0 <= a < p ensures idx[a] < from { assert Visible(all, s, idx[a]); }
  }

  /** `m` is the last visible position up to `j` (none: -1). */
  ghost predicate LastVisible(all: seq<Entry>, s: nat, j: int, m: int) {
    && -1 <= m <= j < |all|
    && (m >= 0 ==> Visible(all, s, m))
    && forall k :: m < k <= j ==> !Visible(all, s, k)
  }

  lemma PrevInView(all: seq<Entry>, s: nat, idx: seq<nat>, p: nat, j: int, m: int)
    requires Sorted(all) && IsView(all, s, idx) && p <= |idx| && LastVisible(all, s, j, m)
    requires SplitsAt(idx, p, j)
    ensures if p == 0 then m == -1 else m == idx[p - 1]
  {
    if p > 0 { assert Visible(all, s, idx[p - 1]); }
    if m >= 0 { var a :| 0 <= a < |idx| && idx[a] == m; assert a < p; }
  }

  lemma ScanStarts(all: seq<Entry>, s: nat, from: nat, skipping0: bool, skip0: UserKey)
    requires Skips(all, s, from, skipping0, skip0)
    ensures Scanning(all, s, from, from, skipping0, skip0, skipping0, skip0)
  {}

  lemma ScanEnds(all: seq<Entry>, s: nat, from: nat, i: nat, skipping0: bool, skip0: UserKey, skipping: bool,
                 skip: UserKey)
    requires Scanning(all, s, from, i, skipping0, skip0, skipping, skip) && i == |all|
    ensures Stopped(all, s, from, i, skipping0, skip0)
  {}

  /** Moves `iter` on to the next entry to yield. */
  method ScanForward(iter: MergingIterator, sequence: nat, skipping0: bool, skip0: UserKey)
    requires iter.Inv() && iter.Valid()
    requires Skips(iter.all, sequence, iter.pos, skipping0, skip0)
    modifies iter, iter.children
    ensures iter.Inv() && old(iter.pos) <= iter.pos
            && Stopped(iter.all, sequence, old(iter.pos), iter.pos, skipping0, skip0)
  {
    hide Skips, SkipOrigin, Scanning, Stopped, Sorted, NothingBetween, Visible, MergingIterator.Inv;
    iter.Outside();
    var skipping, skip := skipping0, skip0;
    ghost var from := iter.pos;
    ScanStarts(iter.all, sequence, from, skipping0, skip0);
    ghost var all := iter.all;
    while iter.Valid()
      invariant iter.Inv() && from <= iter.pos <= |all| && (iter.Valid() <==> iter.pos < |all|)
      invariant Scanning(all, sequence, from, iter.pos, skipping0, skip0, skipping, skip)
      decreases |all| - iter.pos
    {
      ghost var i := iter.pos;
      var k := iter.Key();
      if k.sequence <= sequence {
        if k.kind == TypeDeletion {
          ScanPastDeletion(all, sequence, from, i, skipping0, skip0, skipping, skip);
          skip, skipping := k.user, true;
        } else if skipping && k.user <= skip {
          ScanPastHidden(all, sequence, from, i, skipping0, skip0, skipping, skip);
        } else {
          ScanStops(all, sequence, from, i, skipping0, skip0, skipping, skip);
          break;
        }
      } else {
        ScanPastNewer(all, sequence, from, i, skipping0, skip0, skipping, skip);
      }
      assert Scanning(all, sequence, from, i + 1, skipping0, skip0, skipping, skip);
      iter.Next();
      iter.Outside();
    }
    if !iter.Valid() { ScanEnds(all, sequence, from, iter.pos, skipping0, skip0, skipping, skip); }
  }

  // ----- backward scans -----

  const NO_KEY: UserKey := 0.0

  /** A backward scan that began at `j0` has dealt with everything after `j`. */
  ghost predicate ReverseScanning(all: seq<Entry>, s: nat, j0: int, j: int, kind: ValueType, m: int, key: UserKey,
                                  value: Bytes) {
    && -1 <= j <= j0 < |all| && -1 <= m <= j0
    && (kind == TypeDeletion <==> m == -1)
    && (forall k :: (if m >= 0 then m else j) < k <= j0 ==> !Visible(all, s, k))
    && (m >= 0 ==> j < m && all[m].key.user == key && all[m].value == value && all[m].key.sequence <= s
                   && all[m].key.kind == TypeValue && forall k :: j < k < m ==> all[k].key.sequence > s)
  }

  lemma ReverseStarts(all: seq<Entry>, s: nat, j0: int, key: UserKey, value: Bytes)
    requires -1 <= j0 < |all|
    ensures ReverseScanning(all, s, j0, j0, TypeDeletion, -1, key, value)
  {}

  lemma ReverseStep(all: seq<Entry>, s: nat, j0: int, j: nat, kind: ValueType, m: int, key: UserKey, value: Bytes)
    requires Sorted(all) && j < |all| && ReverseScanning(all, s, j0, j, kind, m, key, value)
    ensures m >= -1 && (kind == TypeDeletion <==> m == -1)
    ensures all[j].key.sequence > s ==> ReverseScanning(all, s, j0, j - 1, kind, m, key, value)
    ensures all[j].key.sequence <= s && !(m >= 0 && all[j].key.user < key) && all[j].key.kind == TypeDeletion ==>
              ReverseScanning(all, s, j0, j - 1, TypeDeletion, -1, NO_KEY, [])
    ensures all[j].key.sequence <= s && !(m >= 0 && all[j].key.user < key) && all[j].key.kind == TypeValue ==>
              ReverseScanning(all, s, j0, j - 1, TypeValue, j, all[j].key.user, all[j].value)
  {
    if all[j].key.sequence <= s && m >= 0 {
      UsersSorted(all, j, m);
    }
  }

  /** In reverse the entry at `m` is saved and the cursor is before all of its key: what lies
      between was written after `s`. */
  ghost predicate SavedAt(all: seq<Entry>, s: nat, p: nat, m: int, key: UserKey, value: Bytes) {
    && 0 <= m < |all| && p <= |all|
    && key == all[m].key.user && value == all[m].value
    && (p < |all| ==> p < m && all[p].key.user < key)
    && forall k :: BackwardsFrom(|all|, p) < k < m && all[k].key.user < key ==> all[k].key.sequence > s
  }

  lemma ReverseStops(all: seq<Entry>, s: nat, j0: int, j: nat, m: int, key: UserKey, value: Bytes)
    requires Sorted(all) && j < |all| && ReverseScanning(all, s, j0, j, TypeValue, m, key, value)
             && all[j].key.user < key
    ensures LastVisible(all, s, j0, m) && SavedAt(all, s, j, m, key, value)
  {
    forall i | 0 <= i <= j ensures all[i].key.user < key { UsersSorted(all, i, j); }
  }

  lemma ReverseEnds(all: seq<Entry>, s: nat, j0: int, p: nat, kind: ValueType, m: int, key: UserKey, value: Bytes)
    requires p == |all| && ReverseScanning(all, s, j0, -1, kind, m, key, value)
    ensures LastVisible(all, s, j0, m) && (m >= 0 ==> SavedAt(all, s, p, m, key, value))
            && (m >= 0 <==> kind == TypeValue)
  {}

  // ----- changing direction -----

  lemma ViewEntry(all: seq<Entry>, s: nat, idx: seq<nat>, p: nat)
    requires IsView(all, s, idx) && p < |idx|
    ensures idx[p] < |all| && Visible(all, s, idx[p])
  {}

  lemma SkipsFromForward(all: seq<Entry>, s: nat, i: nat)
    requires Sorted(all) && i < |all|
    ensures Skips(all, s, i + 1, true, all[i].key.user)
  {
    forall j | 0 <= j <= i ensures all[j].key.user <= all[i].key.user { UsersSorted(all, j, i); }
    forall k | i <= k < |all| ensures all[i].key.user <= all[k].key.user { UsersSorted(all, i, k); }
  }

  lemma SkipsFromReverse(all: seq<Entry>, s: nat, ip: nat, i: nat, key: UserKey, value: Bytes)
    requires Sorted(all) && SavedAt(all, s, ip, i, key, value)
    ensures BackwardsFrom(|all|, ip) < i && key == all[i].key.user
    ensures Skips(all, s, BackwardsFrom(|all|, ip) + 1, true, key)
  {
    if ip < |all| {
      forall j | 0 <= j <= ip ensures all[j].key.user < key { UsersSorted(all, j, ip); }
    }
    forall k | i <= k < |all| ensures key <= all[k].key.user { UsersSorted(all, i, k); }
  }

  lemma SkipsFromSeek(all: seq<Entry>, s: nat, target: UserKey, p: nat)
    requires SeekPosition(all, SeekKey(target, s), p)
    ensures Skips(all, s, p, false, NO_KEY)
  {}

  /** Position `j` lies between the `p` first visible entries and the others. */
  ghost predicate SplitsAt(idx: seq<nat>, p: nat, j: int) {
    && p <= |idx|
    && (forall a :: 0 <= a < p ==> idx[a] <= j)
    && (forall a :: p <= a < |idx| ==> idx[a] > j)
  }

  lemma FrontSplits(idx: seq<nat>, p: nat)
    requires SplitsAt(idx, p, -1)
    ensures p == 0
  {
    if p > 0 { SplitAboveZero(idx, p, -1); }
  }

  lemma SplitAboveZero(idx: seq<nat>, p: nat, j: int)
    requires SplitsAt(idx, p, j) && p > 0
    ensures j >= 0
  {
    assert 0 <= idx[p - 1] <= j;
  }

  lemma ReverseSplits(all: seq<Entry>, s: nat, idx: seq<nat>, p: nat, ip: nat, key: UserKey, value: Bytes)
    requires Sorted(all) && IsView(all, s, idx) && p < |idx| && SavedAt(all, s, ip, idx[p], key, value)
    ensures SplitsAt(idx, p, BackwardsFrom(|all|, ip))
  {
    ViewUsersIncrease(all, s, idx);
    forall a | 0 <= a < p ensures idx[a] <= BackwardsFrom(|all|, ip) {
      assert Visible(all, s, idx[a]);
    }
  }

  lemma SeekUsers(all: seq<Entry>, s: nat, idx: seq<nat>, target: UserKey, from: nat)
    requires IsView(all, s, idx) && SeekPosition(all, SeekKey(target, s), from)
    ensures forall a :: 0 <= a < |idx| ==> idx[a] < |all| && (idx[a] < from <==> all[idx[a]].key.user < target)
  {
    forall a | 0 <= a < |idx| ensures idx[a] < |all| && (idx[a] < from <==> all[idx[a]].key.user < target) {
      assert Visible(all, s, idx[a]);
    }
  }

  lemma LastSplits(all: seq<Entry>, s: nat, idx: seq<nat>)
    requires IsView(all, s, idx)
    ensures SplitsAt(idx, |idx|, |all| - 1)
  {
    forall a | 0 <= a < |idx| ensures idx[a] < |all| { assert Visible(all, s, idx[a]); }
  }

  lemma AtEnd(all: seq<Entry>, s: nat, idx: seq<nat>, p: nat)
    requires IsView(all, s, idx) && p < |idx| && idx[p] + 1 >= |all|
    ensures p + 1 == |idx|
  {
    if p + 1 < |idx| { ViewEntry(all, s, idx, p + 1); }
  }

  /** Backing up from the entry at `top`, only versions of its key have been passed. */
  ghost predicate BackingUp(all: seq<Entry>, i: nat, top: nat, key: UserKey) {
    i <= top < |all| && forall k :: i <= k <= top ==> all[k].key.user == key
  }

  lemma BackUpStep(all: seq<Entry>, i: nat, top: nat, key: UserKey)
    requires Sorted(all) && 0 < i && BackingUp(all, i, top, key) && all[i - 1].key.user >= key
    ensures BackingUp(all, i - 1, top, key)
  {
    UsersSorted(all, i - 1, i);
  }

  lemma BackUpSplits(all: seq<Entry>, s: nat, idx: seq<nat>, p: nat, i: nat, key: UserKey)
    requires Sorted(all) && IsView(all, s, idx) && p < |idx| && BackingUp(all, i, idx[p], key)
    ensures SplitsAt(idx, p, i - 1)
  {
    ViewUsersIncrease(all, s, idx);
  }

  // ----- the iterator -----

  class DBIter {
    const iter: MergingIterator
    const sequence: nat
    var forward: bool
    var valid: bool
    var savedKey: UserKey
    var savedValue: Bytes
    ghost const idx: seq<nat>
    ghost var pos: nat

    constructor (iter: MergingIterator, sequence: nat, ghost idx: seq<nat>)
      requires iter.Inv() && IsView(iter.all, sequence, idx)
      ensures this.iter == iter && this.sequence == sequence && this.idx == idx
      ensures Inv() && pos == |idx|
    {
      this.iter, this.sequence, this.idx := iter, sequence, idx;
      forward, valid, savedKey, savedValue, pos := true, false, 0.0, [], |idx|;
    }

    ghost predicate Inv()
      reads this, iter, iter.children
    {
      && iter.Inv() && IsView(iter.all, sequence, idx)
      && pos <= |idx| && (valid <==> pos < |idx|)
      && (valid && forward ==> iter.pos == idx[pos])
      && (valid && !forward ==> SavedAt(iter.all, sequence, iter.pos, idx[pos], savedKey, savedValue))
    }

    function Key(): UserKey
      requires Inv() && valid
      reads this, iter, iter.children
      ensures idx[pos] < |iter.all| && Key() == iter.all[idx[pos]].key.user
    {
      assert Visible(iter.all, sequence, idx[pos]);
      if forward then iter.Key().user else savedKey
    }

    function Value(): Bytes
      requires Inv() && valid
      reads this, iter, iter.children
      ensures idx[pos] < |iter.all| && Value() == iter.all[idx[pos]].value
    {
      assert Visible(iter.all, sequence, idx[pos]);
      if forward then iter.Value() else savedValue
    }

    /** Moves the inner cursor on to the next entry to yield. */
    method FindNextUserEntry(skipping: bool, skip: UserKey)
      requires iter.Inv() && iter.Valid()
      requires Skips(iter.all, sequence, iter.pos, skipping, skip)
      modifies iter, iter.children, `valid, `savedKey
      ensures iter.Inv() && old(iter.pos) <= iter.pos
              && Stopped(iter.all, sequence, old(iter.pos), iter.pos, skipping, skip)
      ensures valid <==> iter.Valid()
    {
      ScanForward(iter, sequence, skipping, skip);
      valid, savedKey := iter.Valid(), NO_KEY;
    }

    /** Moves the inner cursor back before the entry to yield, which it saves. */
    method FindPrevUserEntry() returns (ghost m: int)
      requires iter.Inv() && iter.pos <= |iter.all|
      modifies iter, iter.children, `valid, `forward, `savedKey, `savedValue
      ensures iter.Inv() && LastVisible(iter.all, sequence, BackwardsFrom(|iter.all|, old(iter.pos)), m)
      ensures valid <==> m >= 0
      ensures if m >= 0 then forward == old(forward) && SavedAt(iter.all, sequence, iter.pos, m, savedKey, savedValue)
              else forward
      ensures iter.pos <= |iter.all|
    {
      hide ReverseScanning, Sorted, LastVisible, SavedAt, MergingIterator.Inv;
      iter.Outside();
      var kind := TypeDeletion;
      ghost var all := iter.all;
      ghost var j0 := BackwardsFrom(|all|, iter.pos);
      m := -1;
      ReverseStarts(all, sequence, j0, savedKey, savedValue);
      while iter.Valid()
        invariant iter.Inv() && iter.pos <= |all| && (iter.Valid() <==> iter.pos < |all|)
        invariant ReverseScanning(all, sequence, j0, BackwardsFrom(|all|, iter.pos), kind, m, savedKey, savedValue)
        invariant forward == old(forward)
        decreases BackwardsFrom(|all|, iter.pos)
      {
        ghost var j: int := iter.pos;
        ReverseStep(all, sequence, j0, j, kind, m, savedKey, savedValue);
        var k := iter.Key();
        if k.sequence <= sequence {
          if kind != TypeDeletion && k.user < savedKey {
            ReverseStops(all, sequence, j0, j, m, savedKey, savedValue);
            break;
          }
          kind := k.kind;
          if kind == TypeDeletion {
            m := -1;
            savedKey, savedValue := NO_KEY, [];
          } else {
            m := j;
            savedKey, savedValue := k.user, iter.Value();
          }
        }
        assert ReverseScanning(all, sequence, j0, j - 1, kind, m, savedKey, savedValue);
        iter.Prev();
        iter.Outside();
      }
      if !iter.Valid() { ReverseEnds(all, sequence, j0, iter.pos, kind, m, savedKey, savedValue); }
      if kind == TypeDeletion {
        valid, forward, savedKey, savedValue := false, true, NO_KEY, [];
      } else {
        valid := true;
      }
    }

    method Next()
      requires Inv() && valid
      modifies this, iter, iter.children
      ensures Inv() && pos == old(pos) + 1
    {
      hide Sorted, IsView, Visible, SavedAt, Skips, Stopped, MergingIterator.Inv;
      iter.Outside();
      ghost var all, p := iter.all, pos;
      ViewEntry(all, sequence, idx, p);
      if !forward {
        forward := true;
        SkipsFromReverse(all, sequence, iter.pos, idx[p], savedKey, savedValue);
        if !iter.Valid() { iter.SeekToFirst(); } else { iter.Next(); }
      } else {
        savedKey := iter.Key().user;
        SkipsFromForward(all, sequence, idx[p]);
        iter.Next();
      }
      iter.Outside();
      ghost var from := iter.pos;
      pos := p + 1;
      if !iter.Valid() {
        AtEnd(all, sequence, idx, p);
        valid, savedKey := false, NO_KEY;
        return;
      }
      FindNextUserEntry(true, savedKey);
      iter.Outside();
      NextInView(all, sequence, idx, p, from, iter.pos);
    }

    method Prev()
      requires Inv() && valid
      modifies this, iter, iter.children
      ensures Inv() && pos == PrevPosition(|idx|, old(pos))
    {
      hide Sorted, IsView, Visible, SavedAt, MergingIterator.Inv;
      iter.Outside();
      ghost var all, p := iter.all, pos;
      ViewEntry(all, sequence, idx, p);
      if forward {
        savedKey := iter.Key().user;
        while true
          invariant iter.Inv() && iter.Valid() && iter.pos < |all| && BackingUp(all, iter.pos, idx[p], savedKey)
          invariant forward && pos == p
          decreases iter.pos
        {
          ghost var i := iter.pos;
          BackUpSplits(all, sequence, idx, p, i, savedKey);
          iter.Prev();
          iter.Outside();
          if !iter.Valid() {
            FrontSplits(idx, p);
            valid, savedKey, savedValue, pos := false, NO_KEY, [], |idx|;
            return;
          }
          if iter.Key().user < savedKey { break; }
          BackUpStep(all, i, idx[p], savedKey);
        }
        forward := false;
      } else {
        ReverseSplits(all, sequence, idx, p, iter.pos, savedKey, savedValue);
      }
      ghost var j := BackwardsFrom(|all|, iter.pos);
      ghost var m := FindPrevUserEntry();
      PrevInView(all, sequence, idx, p, j, m);
      pos := PrevPosition(|idx|, p);
    }

    /** Goes forward from where the inner cursor is. */
    method FindFirstUserEntry()
      requires iter.Inv() && IsView(iter.all, sequence, idx) && iter.pos <= |iter.all|
      requires forward && Skips(iter.all, sequence, iter.pos, false, NO_KEY)
      modifies iter, iter.children, `valid, `savedKey, `pos
      ensures Inv() && SplitsAt(idx, pos, old(iter.pos) - 1)
    {
      hide MergingIterator.Inv;
      iter.Outside();
      ghost var all, from := iter.all, iter.pos;
      if iter.Valid() {
        FindNextUserEntry(false, NO_KEY);
      } else {
        valid := false;
      }
      iter.Outside();
      pos := SeekInView(all, sequence, idx, from, iter.pos);
    }

    /** The first visible entry whose user key is not before `target`. */
    method Seek(target: UserKey)
      requires Inv()
      modifies this, iter, iter.children
      ensures Inv()
      ensures forall a :: 0 <= a < pos ==> idx[a] < |iter.all| && iter.all[idx[a]].key.user < target
      ensures forall a :: pos <= a < |idx| ==> idx[a] < |iter.all| && iter.all[idx[a]].key.user >= target
    {
      hide MergingIterator.Inv;
      forward, savedValue := true, [];
      iter.Seek(SeekKey(target, sequence));
      iter.Outside();
      ghost var from := iter.pos;
      SkipsFromSeek(iter.all, sequence, target, from);
      FindFirstUserEntry();
      SeekUsers(iter.all, sequence, idx, target, from);
    }

    method SeekToFirst()
      requires Inv()
      modifies this, iter, iter.children
      ensures Inv() && pos == 0
    {
      hide MergingIterator.Inv;
      forward, savedValue := true, [];
      iter.SeekToFirst();
      iter.Outside();
      FindFirstUserEntry();
      FrontSplits(idx, pos);
    }

    method SeekToLast()
      requires Inv()
      modifies this, iter, iter.children
      ensures Inv() && pos == LastPosition(|idx|)
    {
      hide MergingIterator.Inv;
      ghost var all := iter.all;
      forward := false;
      iter.SeekToLast();
      iter.Outside();
      LastSplits(all, sequence, idx);
      ghost var m := FindPrevUserEntry();
      PrevInView(all, sequence, idx, |idx|, |all| - 1, m);
      pos := LastPosition(|idx|);
    }
  }
}
