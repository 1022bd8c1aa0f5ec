/** The default comparator on byte strings, and its embedding in the order of ranks. */
module Bytewise {
  import opened InternalKeys

  /** Lexicographic order. */
  predicate BytesLess(a: Bytes, b: Bytes) {
    if b == [] then false
    else if a == [] then true
    else a[0] < b[0] || (a[0] == b[0] && BytesLess(a[1..], b[1..]))
  }

  /** A byte string read as a fraction in base 257, with digits 1 to 256. */
  function Rank(s: Bytes): UserKey {
    if s == [] then 0.0 else (s[0] as real + 1.0 + Rank(s[1..])) / 257.0
  }

  lemma {:induction false} RankRange(s: Bytes)
    ensures 0.0 <= Rank(s) < 1.0 && (s != [] ==> Rank(s) > 0.0)
  {
    if s != [] {
      RankRange(s[1..]);
      DigitRange(s[0] as real + 1.0, Rank(s[1..]));
    }
  }

  lemma DigitRange(d: real, r: real)
    requires 1.0 <= d <= 256.0 && 0.0 <= r < 1.0
    ensures 0.0 < (d + r) / 257.0 < 1.0
  {}

  lemma DigitOrder(d: real, r: real, e: real, q: real)
    ensures (d + r) / 257.0 < (e + q) / 257.0 <==> d + r < e + q
  {}

  /** The rank keeps the order of byte strings, both ways: byte strings as user keys and their
      ranks as user keys are compared alike. */
  lemma {:induction false} RankEmbeds(a: Bytes, b: Bytes)
    ensures BytesLess(a, b) <==> Rank(a) < Rank(b)
    ensures Rank(a) == Rank(b) <==> a == b
  {
    RankRange(a);
    RankRange(b);
    if a != [] && b != [] {
      var x, y := a[0] as real + 1.0, b[0] as real + 1.0;
      RankEmbeds(a[1..], b[1..]);
      RankRange(a[1..]);
      RankRange(b[1..]);
      DigitOrder(x, Rank(a[1..]), y, Rank(b[1..]));
      DigitOrder(y, Rank(b[1..]), x, Rank(a[1..]));
      assert a == [a[0]] + a[1..] && b == [b[0]] + b[1..];
    }
  }

  lemma BytesTotal(a: Bytes, b: Bytes)
    ensures BytesLess(a, b) || BytesLess(b, a) || a == b
    ensures !(BytesLess(a, b) && BytesLess(b, a)) && !BytesLess(a, a)
  {
    RankEmbeds(a, b);
    RankEmbeds(b, a);
  }

  /** Strings that agree up to `n` compare by what follows. */
  lemma {:induction false} CommonPrefix(a: Bytes, b: Bytes, n: nat)
    requires n <= |a| && n <= |b| && forall i :: 0 <= i < n ==> a[i] == b[i]
    ensures BytesLess(a, b) <==> BytesLess(a[n..], b[n..])
  {
    if n > 0 {
      CommonPrefix(a[1..], b[1..], n - 1);
      assert a[1..][n - 1..] == a[n..] && b[1..][n - 1..] == b[n..];
    }
  }

  /** The two strings first differ at `n`, where `a` has the smaller byte. */
  lemma SmallerAt(a: Bytes, b: Bytes, n: nat)
    requires n < |a| && n < |b| && (forall i :: 0 <= i < n ==> a[i] == b[i]) && a[n] < b[n]
    ensures BytesLess(a, b)
  {
    CommonPrefix(a, b, n);
  }

  ghost predicate Between(start: Bytes, t: Bytes, limit: Bytes) { BytesLess(start, t) && BytesLess(t, limit) }

  /** A byte fits between the two strings where they first differ. */
  ghost predicate Gap(start: Bytes, limit: Bytes) {
    exists d :: 0 <= d < |start| && d < |limit| && start[..d] == limit[..d] && start[d] as int + 1 < limit[d]
  }

  /** `r` is shorter than `t`, or as long and not after it. */
  ghost predicate NoLonger(r: Bytes, t: Bytes) { |r| < |t| || (|r| == |t| && !BytesLess(t, r)) }

  /** Strings strictly between two that first differ at `d` go on past `d`. */
  lemma {:induction false} BetweenIsLonger(start: Bytes, limit: Bytes, d: nat, t: Bytes)
    requires d < |start| && d < |limit| && (forall i :: 0 <= i < d ==> start[i] == limit[i]) && start[d] < 0xff
    requires Between(start, t, limit)
    ensures NoLonger(start[..d] + [start[d] + 1], t)
  {
    var r := start[..d] + [start[d] + 1];
    if d == 0 {
      assert |t| == 1 ==> t[1..] == [] && !BytesLess(start[1..], t[1..]);
    } else {
      BetweenIsLonger(start[1..], limit[1..], d - 1, t[1..]);
      assert r[1..] == start[1..][..d - 1] + [start[1..][d - 1] + 1];
    }
  }

  /** So do strings after one that is a run of 0xff up to `i`. */
  lemma {:induction false} AfterIsLonger(key: Bytes, i: nat, t: Bytes)
    requires i <= |key| && (forall j :: 0 <= j < i ==> key[j] == 0xff) && BytesLess(key, t)
    ensures |t| > i
    ensures i < |key| && key[i] < 0xff ==> NoLonger(key[..i] + [key[i] + 1], t)
  {
    if i > 0 {
      AfterIsLonger(key[1..], i - 1, t[1..]);
      if i < |key| && key[i] < 0xff {
        var r := key[..i] + [key[i] + 1];
        assert r[1..] == key[1..][..i - 1] + [key[1..][i - 1] + 1];
      }
    }
  }

  /** The least of the shortest strings strictly between the two, if a byte fits between them
      where they first differ; `start` otherwise, which is also when one is a prefix of the other. */
  method FindShortestSeparator(start: Bytes, limit: Bytes) returns (r: Bytes)
    ensures |r| <= |start|
    ensures r == start <==> !Gap(start, limit)
    ensures r == start || (Between(start, r, limit) && forall t :: Between(start, t, limit) ==> NoLonger(r, t))
  {
    hide BytesLess, Between, NoLonger;
    var minLength := if |start| < |limit| then |start| else |limit|;
    var d := 0;
    while d < minLength && start[d] == limit[d]
      invariant 0 <= d <= minLength && forall i :: 0 <= i < d ==> start[i] == limit[i]
    {
      d := d + 1;
    }
    r := start;
    OnlyFirstDifference(start, limit, d);
    if d < minLength {
      assert start[..d] == limit[..d];
      if start[d] < 0xff && start[d] + 1 < limit[d] {
        r := start[..d] + [start[d] + 1];
        RaisedBetween(start, limit, d, r);
        forall t | Between(start, t, limit) ensures NoLonger(r, t) { BetweenIsLonger(start, limit, d, t); }
      }
    }
  }

  lemma RaisedBetween(start: Bytes, limit: Bytes, d: nat, r: Bytes)
    requires d < |start| && d < |limit| && (forall i :: 0 <= i < d ==> start[i] == limit[i])
    requires start[d] as int + 1 < limit[d] && r == start[..d] + [start[d] + 1]
    ensures Between(start, r, limit)
  {
    SmallerAt(start, r, d);
    SmallerAt(r, limit, d);
  }

  lemma AgreeBelow(a: Bytes, b: Bytes, d: nat, i: nat)
    requires i < d <= |a| && d <= |b| && a[..d] == b[..d]
    ensures a[i] == b[i]
  {
    assert a[..d][i] == b[..d][i];
  }

  lemma OnlyFirstDifference(a: Bytes, b: Bytes, n: nat)
    requires n <= |a| && n <= |b| && (forall i :: 0 <= i < n ==> a[i] == b[i])
    requires n < |a| && n < |b| ==> a[n] != b[n]
    ensures forall d :: 0 <= d < |a| && d < |b| && a[..d] == b[..d] && a[d] != b[d] ==> d == n
  {
    forall d | 0 <= d < |a| && d < |b| && a[..d] == b[..d] && a[d] != b[d] ensures d == n {
      if d > n { AgreeBelow(a, b, d, n); }
    }
  }

  /** The least of the shortest strings after `key`; `key` itself exactly when it is a run of 0xff,
      and all strings after it are longer. */
  method FindShortSuccessor(key: Bytes) returns (r: Bytes)
    ensures |r| <= |key|
    ensures r == key <==> forall i :: 0 <= i < |key| ==> key[i] == 0xff
    ensures r == key || BytesLess(key, r)
    ensures forall t :: BytesLess(key, t) ==> NoLonger(r, t)
  {
    hide BytesLess, NoLonger;
    var i := 0;
    while i < |key|
      invariant 0 <= i <= |key| && forall j :: 0 <= j < i ==> key[j] == 0xff
    {
      if key[i] != 0xff {
        r := key[..i] + [key[i] + 1];
        SmallerAt(key, r, i);
        assert r[i] != key[i];
        forall t | BytesLess(key, t) ensures NoLonger(r, t) { AfterIsLonger(key, i, t); }
        return;
      }
      i := i + 1;
    }
    r := key;
    forall t | BytesLess(key, t) ensures NoLonger(r, t) { LongerIsNoLonger(key, t); }
  }

  lemma LongerIsNoLonger(key: Bytes, t: Bytes)
    requires (forall j :: 0 <= j < |key| ==> key[j] == 0xff) && BytesLess(key, t)
    ensures NoLonger(key, t)
  {
    AfterIsLonger(key, |key|, t);
  }

  /** Shortening in terms of ranks: a shorter result is a user key strictly between. */
  lemma SeparatorRank(start: Bytes, limit: Bytes, r: Bytes)
    requires BytesLess(start, r) && BytesLess(r, limit)
    ensures Rank(start) < Rank(r) < Rank(limit)
  {
    RankEmbeds(start, r);
    RankEmbeds(r, limit);
  }
}
