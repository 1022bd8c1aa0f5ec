/** Encoded internal keys: user key, then sequence number and type in eight bytes. */
module InternalKeyFormats {
  import opened InternalKeys
  import opened Coding
  import opened Bytewise

  datatype ParsedKey = ParsedKey(user: Bytes, sequence: nat, kind: ValueType) {
    /** The key that the rest of the model works with. */
    function Ranked(): InternalKey { InternalKey(Rank(user), sequence, kind) }
  }

  function PackSequenceAndType(sequence: nat, kind: ValueType): nat {
    sequence * 256 + kind.Code()
  }

  function AppendInternalKey(k: ParsedKey): Bytes {
    k.user + Fixed(PackSequenceAndType(k.sequence, k.kind), 8)
  }

  function ExtractUserKey(key: Bytes): Bytes
    requires |key| >= 8
  {
    key[..|key| - 8]
  }

  function PackedTag(key: Bytes): nat
    requires |key| >= 8
  {
    Unfixed(key[|key| - 8..])
  }

  function ParseInternalKey(key: Bytes): Option<ParsedKey> {
    if |key| < 8 then None
    else
      var num := PackedTag(key);
      if num % 256 > 1 then None
      else Some(ParsedKey(ExtractUserKey(key), num / 256, if num % 256 == 0 then TypeDeletion else TypeValue))
  }

  lemma EncodedParts(k: ParsedKey)
    requires k.sequence <= MAX_SEQUENCE
    ensures var key := AppendInternalKey(k);
            |key| == |k.user| + 8 && ExtractUserKey(key) == k.user
              && PackedTag(key) == PackSequenceAndType(k.sequence, k.kind)
  {
    var num := PackSequenceAndType(k.sequence, k.kind);
    Widths();
    FixedRoundTrip(num, 8);
    assert (k.user + Fixed(num, 8))[|k.user|..] == Fixed(num, 8);
  }

  lemma ParseEncoded(k: ParsedKey)
    requires k.sequence <= MAX_SEQUENCE
    ensures ParseInternalKey(AppendInternalKey(k)) == Some(k)
  {
    EncodedParts(k);
  }

  /** Parsing accepts exactly the encodings of keys. */
  lemma ParseAcceptsEncodings(key: Bytes)
    ensures ParseInternalKey(key).Some? <==>
            exists k: ParsedKey :: k.sequence <= MAX_SEQUENCE && AppendInternalKey(k) == key
  {
    if ParseInternalKey(key).Some? {
      var k, tail := ParseInternalKey(key).value, key[|key| - 8..];
      Widths();
      UnfixedRoundTrip(tail);
      assert PackSequenceAndType(k.sequence, k.kind) == PackedTag(key);
      assert key == ExtractUserKey(key) + tail;
      assert k.sequence <= MAX_SEQUENCE && AppendInternalKey(k) == key;
    }
    if k: ParsedKey :| k.sequence <= MAX_SEQUENCE && AppendInternalKey(k) == key { ParseEncoded(k); }
  }

  // ----- the comparator -----

  /** Three-way comparison of byte strings. */
  function CompareBytes(a: Bytes, b: Bytes): int {
    if BytesLess(a, b) then -1 else if BytesLess(b, a) then 1 else 0
  }

  method Compare(a: Bytes, b: Bytes) returns (r: int)
    requires |a| >= 8 && |b| >= 8
    ensures ParseInternalKey(a).Some? && ParseInternalKey(b).Some? ==>
              var x, y := ParseInternalKey(a).value.Ranked(), ParseInternalKey(b).value.Ranked();
              (r < 0 <==> Less(x, y)) && (r > 0 <==> Less(y, x)) && (r == 0 <==> a == b)
  {
    r := CompareBytes(ExtractUserKey(a), ExtractUserKey(b));
    if r == 0 {
      var anum, bnum := PackedTag(a), PackedTag(b);
      if anum > bnum {
        r := -1;
      } else if anum < bnum {
        r := 1;
      }
    }
    if ParseInternalKey(a).Some? && ParseInternalKey(b).Some? { CompareOrder(a, b); }
  }

  /** Bytes compare as the ranked keys do. */
  lemma CompareOrder(a: Bytes, b: Bytes)
    requires ParseInternalKey(a).Some? && ParseInternalKey(b).Some?
    ensures var x, y := ParseInternalKey(a).value.Ranked(), ParseInternalKey(b).value.Ranked();
            var r := CompareBytes(ExtractUserKey(a), ExtractUserKey(b));
            && (Less(x, y) <==> r < 0 || (r == 0 && PackedTag(a) > PackedTag(b)))
            && (Less(y, x) <==> r > 0 || (r == 0 && PackedTag(a) < PackedTag(b)))
            && (a == b <==> r == 0 && PackedTag(a) == PackedTag(b))
  {
    var u, w := ExtractUserKey(a), ExtractUserKey(b);
    RankEmbeds(u, w);
    RankEmbeds(w, u);
    BytesTotal(u, w);
    UnfixedRoundTrip(a[|a| - 8..]);
    UnfixedRoundTrip(b[|b| - 8..]);
    assert a == u + a[|a| - 8..] && b == w + b[|b| - 8..];
  }

  // ----- shortening -----

  /** Some user key that is shorter lies strictly between. */
  ghost predicate HasShorter(start: Bytes, limit: Bytes) { exists t :: Between(start, t, limit) && |t| < |start| }

  /** `start` itself, or a shorter user key strictly between the two user keys at the earliest
      position among its versions: a separator in [start, limit) if there is one at all. With a
      byte free where the user keys first differ, it is shortened whenever it can be, and as far
      as it can be. */
  method FindShortestSeparator(start: ParsedKey, limit: ParsedKey) returns (r: ParsedKey)
    requires start.sequence <= MAX_SEQUENCE
    ensures r == start || (|r.user| < |start.user| && r.sequence == MAX_SEQUENCE && r.kind == TypeValue
                           && Between(start.user, r.user, limit.user))
    ensures r != start <==> Gap(start.user, limit.user) && HasShorter(start.user, limit.user)
    ensures r == start || forall t :: Between(start.user, t, limit.user) ==> NoLonger(r.user, t)
    ensures !Less(r.Ranked(), start.Ranked())
    ensures if Less(start.Ranked(), limit.Ranked()) then Less(r.Ranked(), limit.Ranked()) else r == start
    ensures r.sequence <= MAX_SEQUENCE
  {
    var tmp := Bytewise.FindShortestSeparator(start.user, limit.user);
    BytesTotal(start.user, start.user);
    r := start;
    if |tmp| < |start.user| && BytesLess(start.user, tmp) {
      r := ParsedKey(tmp, MAX_SEQUENCE, TypeValue);
      SeparatorRank(start.user, limit.user, tmp);
    }
  }

  /** Without a free byte the key stays, also where a shorter key would do. */
  lemma NoFreeByteKeepsStart()
    ensures HasShorter([5, 9, 9], [6, 1]) && !Gap([5, 9, 9], [6, 1])
  {
    assert Between([5, 9, 9], [6], [6, 1]) && |[6]| < 3;
    forall d | 0 < d < 2 ensures [5, 9, 9][..d] != [6, 1][..d] {
      assert [5, 9, 9][..d][0] == 5 && [6, 1][..d][0] == 6;
    }
  }

  /** `key` itself, or the least of the shortest user keys after it at the earliest position among
      its versions; it is shortened whenever it can be. */
  method FindShortSuccessor(key: ParsedKey) returns (r: ParsedKey)
    requires key.sequence <= MAX_SEQUENCE
    ensures r == key || (|r.user| < |key.user| && r.sequence == MAX_SEQUENCE && r.kind == TypeValue
            && BytesLess(key.user, r.user))
    ensures r != key <==> exists t :: BytesLess(key.user, t) && |t| < |key.user|
    ensures r == key || forall t :: BytesLess(key.user, t) ==> NoLonger(r.user, t)
    ensures !Less(r.Ranked(), key.Ranked()) && r.sequence <= MAX_SEQUENCE
  {
    var tmp := Bytewise.FindShortSuccessor(key.user);
    r := key;
    if |tmp| < |key.user| && BytesLess(key.user, tmp) {
      r := ParsedKey(tmp, MAX_SEQUENCE, TypeValue);
      RankEmbeds(key.user, tmp);
    }
  }
}
