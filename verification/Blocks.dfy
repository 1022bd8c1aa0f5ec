/** Blocks: keys with shared prefixes between restart points, and the index of those points. */
module Blocks {
  import opened InternalKeys
  import opened Coding

  datatype KeyValue = KeyValue(key: Bytes, value: Bytes)

  /** A comparator, as the rank it gives to each key. */
  type Comparator = Bytes -> real

  ghost predicate Increasing(c: Comparator, es: seq<KeyValue>) {
    forall i, j :: 0 <= i < j < |es| ==> c(es[i].key) < c(es[j].key)
  }

  // ----- the format -----

  predicate Encodable(kv: KeyValue) { |kv.key| < W32 && |kv.value| < W32 }

  function EncodeEntry(shared: nat, kv: KeyValue): Bytes
    requires shared <= |kv.key|
  {
    Varint(shared) + (Varint(|kv.key| - shared) + (Varint(|kv.value|) + (kv.key[shared..] + kv.value)))
  }

  datatype EntryHeader = EntryHeader(shared: nat, nonShared: nat, valueLength: nat)

  /** The three lengths at the front of an entry, and what follows them. */
  function Header(input: Bytes): (r: Option<(EntryHeader, Bytes)>)
    ensures r.Some? ==> |r.value.1| + 3 <= |input| && r.value.0.nonShared + r.value.0.valueLength <= |r.value.1|
  {
    var shared := Varint32(input);
    if shared.None? then None else
    var nonShared := Varint32(shared.value.1);
    if nonShared.None? then None else
    var valueLength := Varint32(nonShared.value.1);
    if valueLength.None? then None else
    if nonShared.value.0 + valueLength.value.0 > |valueLength.value.1| then None
    else Some((EntryHeader(shared.value.0, nonShared.value.0, valueLength.value.0), valueLength.value.1))
  }

  function FixedAll(points: seq<nat>): (r: Bytes)
    ensures |r| == 4 * |points|
  {
    if points == [] then [] else FixedAll(points[..|points|-1]) + Fixed(points[|points|-1], 4)
  }

  /** Entry `i` shares its first `shared[i]` bytes with the key before it. */
  ghost predicate Shares(es: seq<KeyValue>, shared: seq<nat>) {
    && |shared| == |es|
    && (forall i :: 0 <= i < |es| ==> Encodable(es[i]) && shared[i] <= |es[i].key|)
    && (forall i :: 0 < i < |es| ==>
        shared[i] <= |es[i - 1].key| && es[i - 1].key[..shared[i]] == es[i].key[..shared[i]])
    && (es != [] ==> shared[0] == 0)
  }

  ghost predicate EntryAt(data: Bytes, es: seq<KeyValue>, shared: seq<nat>, offs: seq<nat>, i: nat)
    requires i < |es| == |shared| && |offs| == |es| + 1 && shared[i] <= |es[i].key|
  {
    && offs[i + 1] <= |data|
    && offs[i + 1] == offs[i] + |EncodeEntry(shared[i], es[i])|
    && data[offs[i]..offs[i + 1]] == EncodeEntry(shared[i], es[i])
  }

  /** `offs[i]` is where entry `i` begins; the last offset is the end of the entries. */
  ghost predicate Laid(data: Bytes, es: seq<KeyValue>, shared: seq<nat>, offs: seq<nat>) {
    && Shares(es, shared) && |offs| == |es| + 1 && offs[0] == 0 && offs[|es|] <= |data|
    && forall i :: 0 <= i < |es| ==> EntryAt(data, es, shared, offs, i)
  }

  lemma {:induction false} OffsetsGrow(data: Bytes, es: seq<KeyValue>, shared: seq<nat>, offs: seq<nat>, i: nat, j: nat)
    requires Laid(data, es, shared, offs) && i <= j <= |es|
    ensures offs[i] <= offs[j] && (i < j ==> offs[i] < offs[j])
  {
    if i < j {
      OffsetsGrow(data, es, shared, offs, i, j - 1);
      assert EntryAt(data, es, shared, offs, j - 1);
    }
  }

  /** `marks` are the numbers of the entries at restart points: they share nothing. */
  ghost predicate Marked(es: seq<KeyValue>, shared: seq<nat>, marks: seq<nat>) {
    && marks != [] && marks[0] == 0 && |shared| == |es|
    && (forall k :: 0 <= k < |marks| ==> marks[k] <= |es| && (marks[k] < |es| ==> shared[marks[k]] == 0))
    && (forall k :: 1 <= k < |marks| ==> marks[k] < |es|)
    && (forall k, l :: 0 <= k < l < |marks| ==> marks[k] < marks[l])
  }

  function Points(offs: seq<nat>, marks: seq<nat>): (r: seq<nat>)
    requires forall k :: 0 <= k < |marks| ==> marks[k] < |offs|
    ensures |r| == |marks| && forall k :: 0 <= k < |marks| ==> r[k] == offs[marks[k]]
  {
    if marks == [] then [] else Points(offs, marks[..|marks|-1]) + [offs[marks[|marks|-1]]]
  }

  /** A finished block of the entries `es`. */
  ghost predicate IsBlock(data: Bytes, es: seq<KeyValue>, shared: seq<nat>, offs: seq<nat>, marks: seq<nat>) {
    && Laid(data, es, shared, offs) && Marked(es, shared, marks)
    && offs[|es|] < W32 && |marks| < W32
    && data[offs[|es|]..] == FixedAll(Points(offs, marks)) + Fixed(|marks|, 4)
  }

  // ----- decoding -----

  lemma HeaderRoundTrip(shared: nat, kv: KeyValue, suffix: Bytes)
    requires Encodable(kv) && shared <= |kv.key|
    ensures Header(EncodeEntry(shared, kv) + suffix)
         == Some((EntryHeader(shared, |kv.key| - shared, |kv.value|), kv.key[shared..] + kv.value + suffix))
  {
    hide Varint32, Varint;
    var body := kv.key[shared..] + kv.value + suffix;
    var lengths := Varint(|kv.value|) + body;
    var nonShared := Varint(|kv.key| - shared) + lengths;
    assert EncodeEntry(shared, kv) + suffix == Varint(shared) + nonShared;
    Varint32RoundTrip(shared, nonShared);
    Varint32RoundTrip(|kv.key| - shared, lengths);
    Varint32RoundTrip(|kv.value|, body);
  }

  lemma SmallVarint(input: Bytes)
    requires input != [] && input[0] < 128
    ensures Varint32(input) == Some((input[0], input[1..]))
  {}

  lemma ShortHeader(input: Bytes)
    requires |input| < 3
    ensures Header(input) == None
  {
    hide Varint32;
  }

  /** Decodes the lengths; all three in one byte each is the common case. */
  method DecodeEntry(input: Bytes) returns (r: Option<(EntryHeader, Bytes)>)
    ensures r == Header(input)
  {
    hide Varint32;
    if |input| < 3 {
      ShortHeader(input);
      return None;
    }
    var shared, nonShared, valueLength := input[0], input[1], input[2];
    var rest: Bytes;
    var h: EntryHeader;
    if shared < 128 && nonShared < 128 && valueLength < 128 {
      SmallVarint(input);
      assert input[1..][1..] == input[2..] && input[2..][1..] == input[3..];
      SmallVarint(input[1..]);
      SmallVarint(input[2..]);
      h, rest := EntryHeader(shared, nonShared, valueLength), input[3..];
    } else {
      var a := GetVarint32(input);
      if a.None? { return None; }
      var b := GetVarint32(a.value.1);
      if b.None? { return None; }
      var c := GetVarint32(b.value.1);
      if c.None? { return None; }
      h, rest := EntryHeader(a.value.0, b.value.0, c.value.0), c.value.1;
    }
    r := if |rest| < h.nonShared + h.valueLength then None else Some((h, rest));
  }

  // ----- the builder -----

  lemma {:induction false} FixedAllAt(points: seq<nat>, k: nat)
    requires k < |points|
    ensures FixedAll(points)[4 * k..4 * k + 4] == Fixed(points[k], 4)
  {
    hide Fixed;
    if k < |points| - 1 {
      FixedAllAt(points[..|points|-1], k);
      assert FixedAll(points)[4 * k..4 * k + 4] == FixedAll(points[..|points|-1])[4 * k..4 * k + 4];
    }
  }

  lemma SharesSnoc(es: seq<KeyValue>, shared: seq<nat>, kv: KeyValue, n: nat)
    requires Shares(es, shared) && Encodable(kv) && n <= |kv.key|
    requires if es == [] then n == 0 else n <= |es[|es|-1].key| && es[|es|-1].key[..n] == kv.key[..n]
    ensures Shares(es + [kv], shared + [n])
  {
    var r, t := es + [kv], shared + [n];
    forall i | 0 < i < |r| ensures t[i] <= |r[i - 1].key| && r[i - 1].key[..t[i]] == r[i].key[..t[i]] {
      if i == |es| { assert r[i - 1] == es[|es|-1]; } else { assert r[i] == es[i] && r[i - 1] == es[i - 1]; }
    }
  }

  lemma SharesBounds(es: seq<KeyValue>, shared: seq<nat>)
    requires Shares(es, shared)
    ensures |shared| == |es| && forall i :: 0 <= i < |es| ==> shared[i] <= |es[i].key|
  {}

  lemma LaidSnoc(data: Bytes, es: seq<KeyValue>, shared: seq<nat>, offs: seq<nat>, kv: KeyValue, n: nat)
    requires Laid(data, es, shared, offs) && offs[|es|] == |data| && n <= |kv.key| && Shares(es + [kv], shared + [n])
    ensures var data' := data + EncodeEntry(n, kv); Laid(data', es + [kv], shared + [n], offs + [|data'|])
  {
    hide EncodeEntry, Shares;
    SharesBounds(es, shared);
    SharesBounds(es + [kv], shared + [n]);
    var data', r, t := data + EncodeEntry(n, kv), es + [kv], shared + [n];
    var o := offs + [|data'|];
    forall i | 0 <= i < |r| ensures t[i] <= |r[i].key| && EntryAt(data', r, t, o, i) {
      if i < |es| {
        assert EntryAt(data, es, shared, offs, i);
        assert data'[o[i]..o[i + 1]] == data[offs[i]..offs[i + 1]];
      } else {
        assert data'[o[i]..o[i + 1]] == EncodeEntry(n, kv);
      }
    }
    assert Shares(r, t);
  }

  lemma IncreasingSnoc(c: Comparator, es: seq<KeyValue>, kv: KeyValue)
    requires Increasing(c, es) && (es != [] ==> c(es[|es|-1].key) < c(kv.key))
    ensures Increasing(c, es + [kv])
  {
    var r := es + [kv];
    forall i, j | 0 <= i < j < |r| ensures c(r[i].key) < c(r[j].key) {
      if j == |es| && i < |es| - 1 { assert c(es[i].key) < c(es[|es|-1].key); }
    }
  }

  /** Restart points are `interval` entries apart. */
  ghost predicate Spaced(marks: seq<nat>, interval: nat) {
    forall k :: 0 <= k < |marks| ==> marks[k] == k * interval
  }

  lemma {:induction false} PointsMore(offs: seq<nat>, marks: seq<nat>, o: nat)
    requires forall k :: 0 <= k < |marks| ==> marks[k] < |offs|
    ensures Points(offs + [o], marks) == Points(offs, marks)
  {
    if marks != [] { PointsMore(offs, marks[..|marks|-1], o); }
  }

  lemma PointsSnoc(offs: seq<nat>, marks: seq<nat>, m: nat)
    requires m < |offs| && forall k :: 0 <= k < |marks| ==> marks[k] < |offs|
    ensures Points(offs, marks + [m]) == Points(offs, marks) + [offs[m]]
  {
    assert (marks + [m])[..|marks|] == marks;
  }

  lemma MarkedMore(es: seq<KeyValue>, shared: seq<nat>, marks: seq<nat>, kv: KeyValue, n: nat)
    requires Marked(es, shared, marks) && (forall k :: 0 <= k < |marks| && marks[k] == |es| ==> n == 0)
    ensures Marked(es + [kv], shared + [n], marks)
  {
    forall k | 0 <= k < |marks| && marks[k] < |es + [kv]| ensures (shared + [n])[marks[k]] == 0 {
      if marks[k] < |es| { assert shared[marks[k]] == 0; }
    }
  }

  lemma MarkedSnoc(es: seq<KeyValue>, shared: seq<nat>, marks: seq<nat>, kv: KeyValue)
    requires Marked(es, shared, marks) && marks[|marks|-1] < |es|
    ensures Marked(es + [kv], shared + [0], marks + [|es|])
  {
    MarkedMore(es, shared, marks, kv, 0);
    var r := marks + [|es|];
    forall k, l | 0 <= k < l < |r| ensures r[k] < r[l] {
      if l == |marks| && k < |marks| - 1 { assert marks[k] < marks[|marks|-1]; }
    }
  }

  /** What the builder's fields say about the entries added so far. */
  ghost predicate Built(c: Comparator, interval: nat, buffer: Bytes, restarts: seq<nat>, counter: nat,
                        es: seq<KeyValue>, shared: seq<nat>, offs: seq<nat>, marks: seq<nat>)
  {
    && interval >= 1
    && Laid(buffer, es, shared, offs) && offs[|es|] == |buffer| && Marked(es, shared, marks)
    && restarts == Points(offs, marks)
    && Increasing(c, es) && Counted(es, marks, counter, interval)
  }

  lemma BuiltShared(c: Comparator, interval: nat, buffer: Bytes, restarts: seq<nat>, counter: nat,
                    es: seq<KeyValue>, shared: seq<nat>, offs: seq<nat>, marks: seq<nat>, kv: KeyValue, n: nat)
    requires Built(c, interval, buffer, restarts, counter, es, shared, offs, marks) && counter < interval
             && Encodable(kv) && n <= |kv.key|
    requires if es == [] then n == 0
             else c(es[|es|-1].key) < c(kv.key) && n <= |es[|es|-1].key| && es[|es|-1].key[..n] == kv.key[..n]
    ensures var buffer' := buffer + EncodeEntry(n, kv);
            Built(c, interval, buffer', restarts, counter + 1, es + [kv], shared + [n], offs + [|buffer'|], marks)
  {
    hide Laid, Marked, Increasing, EncodeEntry, Shares, Counted, Points;
    Parts(buffer, es, shared, offs, marks);
    LastMark(es, marks, counter, interval);
    MarkedMore(es, shared, marks, kv, n);
    CountOne(es, marks, counter, interval, kv);
    SharesSnoc(es, shared, kv, n);
    LaidSnoc(buffer, es, shared, offs, kv, n);
    IncreasingSnoc(c, es, kv);
    PointsMore(offs, marks, |buffer + EncodeEntry(n, kv)|);
  }

  lemma BuiltRestart(c: Comparator, interval: nat, buffer: Bytes, restarts: seq<nat>, counter: nat,
                     es: seq<KeyValue>, shared: seq<nat>, offs: seq<nat>, marks: seq<nat>, kv: KeyValue)
    requires Built(c, interval, buffer, restarts, counter, es, shared, offs, marks) && counter >= interval
             && Encodable(kv)
    requires es != [] ==> c(es[|es|-1].key) < c(kv.key)
    ensures var buffer' := buffer + EncodeEntry(0, kv);
            Built(c, interval, buffer', restarts + [|buffer|], 1, es + [kv], shared + [0], offs + [|buffer'|],
              marks + [|es|])
  {
    hide Laid, Marked, Increasing, EncodeEntry, Shares, Counted, Points;
    Parts(buffer, es, shared, offs, marks);
    LastMark(es, marks, counter, interval);
    MarkedSnoc(es, shared, marks, kv);
    PointsSnoc(offs, marks, |es|);
    CountRestart(es, marks, counter, interval, kv);
    if es != [] { assert es[|es|-1].key[..0] == kv.key[..0]; }
    SharesSnoc(es, shared, kv, 0);
    LaidSnoc(buffer, es, shared, offs, kv, 0);
    IncreasingSnoc(c, es, kv);
    PointsMore(offs, marks + [|es|], |buffer + EncodeEntry(0, kv)|);
  }

  /** The two begin with the same `n` bytes, and with no more. */
  predicate LongestShared(a: Bytes, b: Bytes, n: nat) {
    n <= |a| && n <= |b| && a[..n] == b[..n] && (n < |a| && n < |b| ==> a[n] != b[n])
  }

  lemma Rejoined(a: Bytes, b: Bytes, n: nat)
    requires n == 0 || LongestShared(a, b, n)
    ensures n <= |a| && n <= |b| && a[..n] + b[n..] == b
  {
    assert a[..n] == b[..n];
  }

  lemma SharedBytes(a: Bytes, b: Bytes, n: nat)
    requires LongestShared(a, b, n)
    ensures n <= |a| && n <= |b| && a[..n] == b[..n]
  {}

  class BlockBuilder {
    const comparator: Comparator
    const interval: nat
    var buffer: Bytes
    var restarts: seq<nat>
    var counter: nat
    var finished: bool
    var lastKey: Bytes
    ghost var es: seq<KeyValue>
    ghost var shared: seq<nat>
    ghost var offs: seq<nat>
    ghost var marks: seq<nat>

    constructor (comparator: Comparator, interval: nat)
      requires interval >= 1
      ensures Valid() && es == [] && this.comparator == comparator && this.interval == interval
    {
      this.comparator, this.interval := comparator, interval;
      buffer, restarts, counter, finished, lastKey := [], [0], 0, false, [];
      es, shared, offs, marks := [], [], [0], [0];
      new;
      hide Built;
      EmptyBlock(comparator, interval);
    }

    ghost predicate Valid()
      reads this
    {
      && !finished && Built(comparator, interval, buffer, restarts, counter, es, shared, offs, marks)
      && lastKey == (if es == [] then [] else es[|es|-1].key)
    }

    method Reset()
      requires interval >= 1
      modifies this
      ensures Valid() && es == []
    {
      hide Built;
      buffer, restarts, counter, finished, lastKey := [], [0], 0, false, [];
      es, shared, offs, marks := [], [], [0], [0];
      EmptyBlock(comparator, interval);
    }

    /** The length of the prefix that the new key shares with the last one. */
    method SharedPrefix(key: Bytes) returns (n: nat)
      ensures LongestShared(lastKey, key, n)
    {
      var minLength := if |lastKey| < |key| then |lastKey| else |key|;
      n := 0;
      while n < minLength && lastKey[n] == key[n]
        invariant 0 <= n <= minLength && lastKey[..n] == key[..n]
      {
        assert lastKey[..n + 1] == lastKey[..n] + [lastKey[n]] && key[..n + 1] == key[..n] + [key[n]];
        n := n + 1;
      }
    }

    /** Appends an entry; it shares a prefix with the key before it unless it is at a restart. */
    method Add(key: Bytes, value: Bytes)
      requires Valid() && |key| < W32 && |value| < W32
      requires es != [] ==> comparator(lastKey) < comparator(key)
      modifies this
      ensures Valid() && es == old(es) + [KeyValue(key, value)]
      ensures |shared| == |old(shared)| + 1 && shared[..|old(shared)|] == old(shared)
      ensures var n := shared[|old(shared)|];
              if old(counter) < interval then LongestShared(old(lastKey), key, n) else n == 0
    {
      hide Built, EncodeEntry, LongestShared;
      var kv := KeyValue(key, value);
      var n := 0;
      if counter < interval {
        n := SharedPrefix(key);
        SharedBytes(lastKey, key, n);
        BuiltShared(comparator, interval, buffer, restarts, counter, es, shared, offs, marks, kv, n);
      } else {
        BuiltRestart(comparator, interval, buffer, restarts, counter, es, shared, offs, marks, kv);
        restarts := restarts + [|buffer|];
        marks := marks + [|es|];
        counter := 0;
      }
      Rejoined(lastKey, key, n);
      buffer := AppendEntry(buffer, n, kv);
      es, shared, offs := es + [kv], shared + [n], offs + [|buffer|];
      lastKey := lastKey[..n] + key[n..];
      counter := counter + 1;
    }

    /** The block: the entries, then where the restart points are, then how many there are. */
    method Finish() returns (data: Bytes)
      requires Valid() && |buffer| < W32 && |restarts| < W32
      modifies `buffer, `finished
      ensures finished && IsBlock(data, es, shared, offs, marks) && Increasing(comparator, es)
      ensures forall k :: 0 <= k < |marks| ==> marks[k] == k * interval
    {
      hide Marked, Increasing, Shares, FixedAll, EncodeEntry, Points;
      Parts(buffer, es, shared, offs, marks);
      CountedSpaced(es, marks, counter, interval);
      hide Counted;
      ghost var start := buffer;
      var i := 0;
      assert restarts[..0] == [] && buffer == start + FixedAll([]) by { EmptyFixed(); }
      while i < |restarts|
        invariant 0 <= i <= |restarts| && buffer == start + FixedAll(restarts[..i])
      {
        FixedAllSnoc(restarts, i);
        buffer := buffer + Fixed(restarts[i], 4);
        i := i + 1;
      }
      assert restarts[..i] == restarts;
      buffer := buffer + Fixed(|restarts|, 4);
      finished := true;
      data := buffer;
      LaidPrefix(start, data, es, shared, offs);
      assert data[offs[|es|]..] == FixedAll(restarts) + Fixed(|restarts|, 4);
    }
  }

  lemma CountedSpaced(es: seq<KeyValue>, marks: seq<nat>, counter: nat, interval: nat)
    requires Counted(es, marks, counter, interval)
    ensures forall k :: 0 <= k < |marks| ==> marks[k] == k * interval
  {}

  lemma EmptyFixed()
    ensures FixedAll([]) == []
  {}

  lemma FixedAllSnoc(points: seq<nat>, i: nat)
    requires i < |points|
    ensures FixedAll(points[..i + 1]) == FixedAll(points[..i]) + Fixed(points[i], 4)
  {
    hide Fixed;
    assert points[..i + 1][..i] == points[..i];
  }

  lemma LaidPrefix(data: Bytes, more: Bytes, es: seq<KeyValue>, shared: seq<nat>, offs: seq<nat>)
    requires Laid(data, es, shared, offs) && data <= more
    ensures Laid(more, es, shared, offs)
  {
    hide EncodeEntry, Shares;
    SharesBounds(es, shared);
    forall i | 0 <= i < |es| ensures EntryAt(more, es, shared, offs, i) {
      assert EntryAt(data, es, shared, offs, i);
      assert more[offs[i]..offs[i + 1]] == data[offs[i]..offs[i + 1]];
    }
  }

  lemma EmptyBlock(c: Comparator, interval: nat)
    requires interval >= 1
    ensures Built(c, interval, [], [0], 0, [], [], [0], [0])
  {
    hide Laid, Marked, Increasing, Counted, Points;
    EmptyPoints();
    EmptyParts(c, interval);
  }

  lemma EmptyParts(c: Comparator, interval: nat)
    ensures Laid([], [], [], [0]) && Marked([], [], [0]) && Increasing(c, []) && Counted([], [0], 0, interval)
  {}

  lemma EmptyPoints()
    ensures Points([0], [0]) == [0]
  {
    assert Points([0], []) == [];
  }

  ghost predicate Counted(es: seq<KeyValue>, marks: seq<nat>, counter: nat, interval: nat) {
    && Spaced(marks, interval) && marks != [] && counter <= interval
    && |es| == marks[|marks|-1] + counter && (counter == 0 ==> es == [])
  }

  lemma {:induction false} Times(k: nat, l: nat, n: nat)
    requires k < l && n >= 1
    ensures k * n < l * n
  {
    if k < l - 1 { Times(k, l - 1, n); }
    assert l * n == (l - 1) * n + n;
  }

  lemma LastMark(es: seq<KeyValue>, marks: seq<nat>, counter: nat, interval: nat)
    requires Counted(es, marks, counter, interval) && interval >= 1
    ensures marks != [] && |es| == marks[|marks|-1] + counter && counter <= interval && (counter == 0 ==> es == [])
    ensures forall k :: 0 <= k < |marks| && marks[k] == |es| ==> counter == 0
  {
    forall k | 0 <= k < |marks| - 1 ensures marks[k] < marks[|marks|-1] {
      Times(k, |marks| - 1, interval);
    }
  }

  lemma CountOne(es: seq<KeyValue>, marks: seq<nat>, counter: nat, interval: nat, kv: KeyValue)
    requires Counted(es, marks, counter, interval) && counter < interval
    ensures Counted(es + [kv], marks, counter + 1, interval)
  {}

  lemma CountRestart(es: seq<KeyValue>, marks: seq<nat>, counter: nat, interval: nat, kv: KeyValue)
    requires Counted(es, marks, counter, interval) && counter == interval && interval >= 1
    ensures Counted(es + [kv], marks + [|es|], 1, interval)
  {
    assert |es| == (|marks| - 1) * interval + interval == |marks| * interval;
  }

  lemma Parts(data: Bytes, es: seq<KeyValue>, shared: seq<nat>, offs: seq<nat>, marks: seq<nat>)
    requires Laid(data, es, shared, offs) && Marked(es, shared, marks)
    ensures Shares(es, shared) && |offs| == |es| + 1 && |shared| == |es| && marks != []
    ensures forall k :: 0 <= k < |marks| ==> marks[k] < |offs|
  {}

  method AppendEntry(buffer: Bytes, n: nat, kv: KeyValue) returns (r: Bytes)
    requires n <= |kv.key| && Encodable(kv)
    ensures r == buffer + EncodeEntry(n, kv)
  {
    hide Varint;
    var a := EncodeVarint32(n);
    var b := EncodeVarint32(|kv.key| - n);
    var c := EncodeVarint32(|kv.value|);
    r := buffer + a;
    r := r + b;
    r := r + c;
    r := r + kv.key[n..];
    r := r + kv.value;
    assert r == buffer + EncodeEntry(n, kv);
  }

  // ----- the reader -----

  /** Where the restart points are and how many there are; nothing when the contents are too
      short for what they say. */
  method Open(data: Bytes) returns (r: Option<(nat, nat)>)
    ensures r.Some? ==> r.value.1 > 0 && r.value.0 + 4 * r.value.1 + 4 == |data|
    ensures forall es, shared, offs, marks :: IsBlock(data, es, shared, offs, marks) ==>
            r == Some((offs[|es|], |marks|))
  {
    hide Laid, FixedAll, Points;
    forall es, shared, offs, marks | IsBlock(data, es, shared, offs, marks)
      ensures |offs| == |es| + 1 && offs[|es|] + 4 * |marks| + 4 == |data| && |marks| > 0
              && Unfixed(data[|data| - 4..]) == |marks|
    {
      BlockEnd(data, es, shared, offs, marks);
    }
    if |data| < 4 { return None; }
    var n := Unfixed(data[|data| - 4..]);
    if n > (|data| - 4) / 4 || n == 0 { return None; }
    r := Some((|data| - (1 + n) * 4, n));
  }

  lemma BlockEnd(data: Bytes, es: seq<KeyValue>, shared: seq<nat>, offs: seq<nat>, marks: seq<nat>)
    requires IsBlock(data, es, shared, offs, marks)
    ensures |offs| == |es| + 1 && |data| == offs[|es|] + 4 * |marks| + 4 && |marks| > 0
            && Unfixed(data[|data| - 4..]) == |marks|
  {
    hide FixedAll, Fixed, Unfixed, EntryAt, Shares;
    var tail := FixedAll(Points(offs, marks)) + Fixed(|marks|, 4);
    assert data[|data| - 4..] == tail[|tail| - 4..] == Fixed(|marks|, 4);
    Widths();
    FixedRoundTrip(|marks|, 4);
  }

  /** A restart point of a block is where the marked entry begins. */
  lemma PointAt(data: Bytes, es: seq<KeyValue>, shared: seq<nat>, offs: seq<nat>, marks: seq<nat>, k: nat)
    requires IsBlock(data, es, shared, offs, marks) && k < |marks|
    ensures var r := offs[|es|];
            r + 4 * k + 4 <= |data| && marks[k] <= |es| && Unfixed(data[r + 4 * k..r + 4 * k + 4]) == offs[marks[k]]
  {
    hide FixedAll, Fixed, Unfixed, EntryAt, Shares;
    BlockEnd(data, es, shared, offs, marks);
    var points, r := Points(offs, marks), offs[|es|];
    FixedAllAt(points, k);
    assert data[r + 4 * k..r + 4 * k + 4] == data[r..][4 * k..4 * k + 4] == FixedAll(points)[4 * k..4 * k + 4];
    OffsetBound(data, es, shared, offs, marks[k]);
    Widths();
    FixedRoundTrip(points[k], 4);
  }

  lemma OffsetBound(data: Bytes, es: seq<KeyValue>, shared: seq<nat>, offs: seq<nat>, i: nat)
    requires Laid(data, es, shared, offs) && i <= |es|
    ensures offs[i] <= offs[|es|]
  {
    OffsetsGrow(data, es, shared, offs, i, |es|);
  }

  /** Decoding at the start of entry `i` gives its parts. */
  lemma EntryParts(data: Bytes, es: seq<KeyValue>, shared: seq<nat>, offs: seq<nat>, i: nat)
    requires Laid(data, es, shared, offs) && i < |es|
    ensures offs[i] < offs[i + 1] <= offs[|es|] <= |data|
    ensures var h := Header(data[offs[i]..offs[|es|]]);
            && h.Some? && h.value.0 == EntryHeader(shared[i], |es[i].key| - shared[i], |es[i].value|)
            && h.value.1[..h.value.0.nonShared] == es[i].key[shared[i]..]
            && h.value.1[h.value.0.nonShared..h.value.0.nonShared + h.value.0.valueLength] == es[i].value
            && offs[|es|] - |h.value.1| + h.value.0.nonShared + h.value.0.valueLength == offs[i + 1]
  {
    hide EncodeEntry, Header;
    OffsetsGrow(data, es, shared, offs, i, i + 1);
    OffsetsGrow(data, es, shared, offs, i + 1, |es|);
    assert EntryAt(data, es, shared, offs, i);
    var suffix := data[offs[i + 1]..offs[|es|]];
    assert data[offs[i]..offs[|es|]] == EncodeEntry(shared[i], es[i]) + suffix;
    HeaderRoundTrip(shared[i], es[i], suffix);
    EntryLength(shared[i], es[i], suffix);
  }

  lemma EntryLength(shared: nat, kv: KeyValue, suffix: Bytes)
    requires shared <= |kv.key|
    ensures var rest := kv.key[shared..] + kv.value + suffix;
            && rest[..|kv.key| - shared] == kv.key[shared..]
            && rest[|kv.key| - shared..|kv.key| - shared + |kv.value|] == kv.value
            && |rest| == |kv.key| - shared + |kv.value| + |suffix|
  {}
}
