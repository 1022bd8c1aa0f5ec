/** Write batches: a header with a sequence number and a count, then the operations. */
module WriteBatches {
  import opened InternalKeys
  import opened Coding

  const HEADER: nat := 12

  datatype BatchOp = Put(key: Bytes, value: Bytes) | Delete(key: Bytes)

  predicate IsOp(op: BatchOp) {
    |op.key| < W32 && (op.Put? ==> |op.value| < W32)
  }

  function Record(op: BatchOp): Bytes {
    match op
    case Put(key, value) => [TypeValue.Code()] + (Prefixed(key) + Prefixed(value))
    case Delete(key) => [TypeDeletion.Code()] + Prefixed(key)
  }

  function Records(ops: seq<BatchOp>): Bytes {
    if ops == [] then [] else Records(ops[..|ops|-1]) + Record(ops[|ops|-1])
  }

  /** A count keeps its low 32 bits. */
  function Low32(n: nat): nat { n % W32 }

  lemma Low32Sum(a: nat, b: nat)
    ensures Low32(Low32(a) + b) == Low32(a + b) && Low32(a + Low32(b)) == Low32(a + b)
  {}

  lemma Low32Exact(n: nat)
    ensures Low32(n) == n <==> n < W32
  {}

  /** The bytes of a batch; the count has 32 bits. */
  function Rep(sequence: nat, ops: seq<BatchOp>): Bytes {
    Fixed(sequence, 8) + Fixed(Low32(|ops|), 4) + Records(ops)
  }

  /** One operation at the front of `input`. */
  function ParseOne(input: Bytes): (r: Option<(BatchOp, Bytes)>)
    requires input != []
    ensures r.Some? ==> |r.value.1| < |input|
  {
    var key := Unprefixed(input[1..]);
    if input[0] == TypeValue.Code() then
      if key.None? then None else
      var value := Unprefixed(key.value.1);
      if value.None? then None else Some((Put(key.value.0, value.value.0), value.value.1))
    else if input[0] == TypeDeletion.Code() then
      if key.None? then None else Some((Delete(key.value.0), key.value.1))
    else None
  }

  /** The operations that can be read, and whether that was all there is. */
  function Parse(input: Bytes): (seq<BatchOp>, bool)
    decreases |input|
  {
    if input == [] then ([], true)
    else
      var one := ParseOne(input);
      if one.None? then ([], false)
      else
        var rest := Parse(one.value.1);
        ([one.value.0] + rest.0, rest.1)
  }

  lemma ParseRecord(op: BatchOp, suffix: Bytes)
    requires IsOp(op)
    ensures ParseOne(Record(op) + suffix) == Some((op, suffix))
  {
    hide Unprefixed, Prefixed;
    var input := Record(op) + suffix;
    match op
    case Put(key, value) =>
      assert input[1..] == Prefixed(key) + (Prefixed(value) + suffix);
      PrefixedRoundTrip(key, Prefixed(value) + suffix);
      PrefixedRoundTrip(value, suffix);
    case Delete(key) =>
      assert input[1..] == Prefixed(key) + suffix;
      PrefixedRoundTrip(key, suffix);
  }

  lemma {:induction false} ParseRecords(ops: seq<BatchOp>, suffix: Bytes)
    requires forall op :: op in ops ==> IsOp(op)
    ensures Parse(Records(ops) + suffix) == (ops + Parse(suffix).0, Parse(suffix).1)
  {
    hide ParseOne, Record, IsOp;
    if ops == [] {
      assert Records(ops) + suffix == suffix;
      assert ops + Parse(suffix).0 == Parse(suffix).0;
    } else {
      var init, op := ops[..|ops|-1], ops[|ops|-1];
      assert Records(ops) + suffix == Records(init) + (Record(op) + suffix);
      ParseRecords(init, Record(op) + suffix);
      ParseRecord(op, suffix);
      assert init + ([op] + Parse(suffix).0) == ops + Parse(suffix).0;
    }
  }

  lemma Snoc(ops: seq<BatchOp>, op: BatchOp)
    ensures Records(ops + [op]) == Records(ops) + Record(op)
  {
    hide Record;
    assert (ops + [op])[..|ops|] == ops;
  }

  lemma {:induction false} RecordsConcat(a: seq<BatchOp>, b: seq<BatchOp>)
    ensures Records(a + b) == Records(a) + Records(b)
  {
    hide Record;
    if b == [] {
      assert a + b == a;
    } else {
      var init, op := b[..|b|-1], b[|b|-1];
      RecordsConcat(a, init);
      assert a + b == (a + init) + [op];
      Snoc(a + init, op);
      assert Records(a) + (Records(init) + Record(op)) == (Records(a) + Records(init)) + Record(op);
    }
  }

  datatype Status = OK | Corruption

  class WriteBatch {
    var rep: Bytes
    ghost var sequence: nat
    ghost var ops: seq<BatchOp>

    ghost predicate Valid()
      reads this
    {
      rep == Rep(sequence, ops) && sequence < W64 && forall op :: op in ops ==> IsOp(op)
    }

    constructor ()
      ensures Valid() && ops == [] && sequence == 0
    {
      rep, sequence, ops := [0, 0, 0, 0, 0, 0, 0, 0, 0, 0, 0, 0], 0, [];
      new;
      assert Fixed(0, 1) == [0] && Fixed(0, 2) == [0, 0] && Fixed(0, 4) == [0, 0, 0, 0];
      assert Fixed(0, 6) == [0, 0, 0, 0, 0, 0] && Fixed(0, 8) == [0, 0, 0, 0, 0, 0, 0, 0];
    }

    method Clear()
      modifies this
      ensures Valid() && ops == [] && sequence == 0
    {
      rep, sequence, ops := [0, 0, 0, 0, 0, 0, 0, 0, 0, 0, 0, 0], 0, [];
      assert Fixed(0, 1) == [0] && Fixed(0, 2) == [0, 0] && Fixed(0, 4) == [0, 0, 0, 0];
      assert Fixed(0, 6) == [0, 0, 0, 0, 0, 0] && Fixed(0, 8) == [0, 0, 0, 0, 0, 0, 0, 0];
    }

    method Count() returns (n: nat)
      requires Valid()
      ensures n == Low32(|ops|)
    {
      Parts(rep, sequence, ops);
      n := Unfixed(rep[8..12]);
    }

    method Sequence() returns (n: nat)
      requires Valid()
      ensures n == sequence
    {
      Parts(rep, sequence, ops);
      n := Unfixed(rep[..8]);
    }

    method SetCount(n: nat)
      requires |rep| >= HEADER
      modifies `rep
      ensures rep == old(rep[..8]) + Fixed(Low32(n), 4) + old(rep[12..])
    {
      rep := rep[..8] + Fixed(Low32(n), 4) + rep[12..];
    }

    method SetSequence(n: nat)
      requires Valid() && n < W64
      modifies this
      ensures Valid() && ops == old(ops) && sequence == n
    {
      hide Records, Fixed, Unfixed, Low32, IsOp;
      Parts(rep, sequence, ops);
      rep := Fixed(n, 8) + rep[8..];
      sequence := n;
    }

    method Put(key: Bytes, value: Bytes)
      requires Valid() && |key| < W32 && |value| < W32
      modifies this
      ensures Valid() && ops == old(ops) + [BatchOp.Put(key, value)] && sequence == old(sequence)
    {
      Add(BatchOp.Put(key, value));
    }

    method Delete(key: Bytes)
      requires Valid() && |key| < W32
      modifies this
      ensures Valid() && ops == old(ops) + [BatchOp.Delete(key)] && sequence == old(sequence)
    {
      Add(BatchOp.Delete(key));
    }

    method Add(op: BatchOp)
      requires Valid() && IsOp(op)
      modifies this
      ensures Valid() && ops == old(ops) + [op] && sequence == old(sequence)
    {
      hide Record, Records, Fixed, Unfixed, Low32, IsOp;
      var n := Count();
      Parts(rep, sequence, ops);
      SetCount(n + 1);
      rep := rep + Record(op);
      Snoc(ops, op);
      Low32Sum(|ops|, 1);
      assert rep == Rep(sequence, ops + [op]);
      ops := ops + [op];
    }

    /** The operations of `source` follow those of this batch. */
    method Append(source: WriteBatch)
      requires Valid() && source.Valid()
      modifies this
      ensures Valid() && ops == old(ops + source.ops) && sequence == old(sequence)
    {
      hide Record, Records, Fixed, Unfixed, Low32, IsOp;
      var n := Count();
      var m := source.Count();
      Parts(rep, sequence, ops);
      Parts(source.rep, source.sequence, source.ops);
      ghost var all := ops + source.ops;
      RecordsConcat(ops, source.ops);
      var tail := source.rep[HEADER..];
      SetCount(n + m);
      rep := rep + tail;
      Low32Sum(|ops|, m);
      Low32Sum(|ops|, |source.ops|);
      Low32Sum(n, |source.ops|);
      Low32Sum(|ops|, |source.ops|);
      assert rep == Rep(sequence, all);
      ops := all;
    }
  }

  lemma Parts(rep: Bytes, sequence: nat, ops: seq<BatchOp>)
    requires rep == Rep(sequence, ops) && sequence < W64
    ensures |rep| >= HEADER && rep[..8] == Fixed(sequence, 8) && rep[8..12] == Fixed(Low32(|ops|), 4)
            && rep[12..] == Records(ops)
    ensures rep[8..] == Fixed(Low32(|ops|), 4) + Records(ops)
    ensures Unfixed(rep[..8]) == sequence && Unfixed(rep[8..12]) == Low32(|ops|)
  {
    hide Records, Fixed, Unfixed, Pow;
    Widths();
    FixedRoundTrip(sequence, 8);
    FixedRoundTrip(Low32(|ops|), 4);
  }

  /** Hands the operations in `rep` to a handler one by one (here: collects them), stopping at
      the first one that is malformed; the count must agree in the end. */
  method Iterate(rep: Bytes) returns (handled: seq<BatchOp>, s: Status)
    ensures |rep| < HEADER ==> handled == [] && s == Corruption
    ensures |rep| >= HEADER ==>
              var p := Parse(rep[HEADER..]);
              handled == p.0 && (s == OK <==> p.1 && |p.0| == Unfixed(rep[8..12]))
  {
    hide ParseOne, Record, IsOp, Unprefixed;
    handled := [];
    if |rep| < HEADER { return handled, Corruption; }
    var input := rep[HEADER..];
    ghost var whole := Parse(input);
    var found := 0;
    assert [] + whole.0 == whole.0;
    while input != []
      invariant found == |handled|
      invariant whole == (handled + Parse(input).0, Parse(input).1)
      decreases |input|
    {
      found := found + 1;
      var one := GetOne(input);
      if one.None? { return handled, Corruption; }
      assert handled + ([one.value.0] + Parse(one.value.1).0) == (handled + [one.value.0]) + Parse(one.value.1).0;
      handled, input := handled + [one.value.0], one.value.1;
    }
    s := if found != Unfixed(rep[8..12]) then Corruption else OK;
  }

  method GetOne(input: Bytes) returns (r: Option<(BatchOp, Bytes)>)
    requires input != []
    ensures r == ParseOne(input)
  {
    var tag := input[0];
    if tag == TypeValue.Code() {
      var key := GetLengthPrefixedSlice(input[1..]);
      if key.None? { return None; }
      var value := GetLengthPrefixedSlice(key.value.1);
      r := if value.None? then None else Some((Put(key.value.0, value.value.0), value.value.1));
    } else if tag == TypeDeletion.Code() {
      var key := GetLengthPrefixedSlice(input[1..]);
      r := if key.None? then None else Some((Delete(key.value.0), key.value.1));
    } else {
      r := None;
    }
  }

  lemma NothingLeft()
    ensures Parse([]) == ([], true)
  {}

  /** What is read back from a batch is what was put in, and the status is good exactly when
      the count did not wrap around. */
  lemma BatchRoundTrip(sequence: nat, ops: seq<BatchOp>)
    requires sequence < W64 && forall op :: op in ops ==> IsOp(op)
    ensures var rep := Rep(sequence, ops);
            && |rep| >= HEADER && Parse(rep[HEADER..]) == (ops, true) && Unfixed(rep[..8]) == sequence
            && (Unfixed(rep[8..12]) == |ops| <==> |ops| < W32)
  {
    hide Records, Fixed, Unfixed, IsOp, Low32, ParseOne;
    Low32Exact(|ops|);
    NothingLeft();
    Parts(Rep(sequence, ops), sequence, ops);
    ParseRecords(ops, []);
    assert Records(ops) + [] == Records(ops) && ops + [] == ops;
  }

  /** The memtable gets the operations with consecutive sequence numbers. */
  method InsertInto(b: WriteBatch) returns (added: seq<(nat, BatchOp)>, s: Status)
    requires b.Valid()
    ensures |added| == |b.ops|
    ensures forall i :: 0 <= i < |added| ==> added[i] == (b.sequence + i, b.ops[i])
    ensures s == OK <==> |b.ops| < W32
  {
    hide Records, Fixed, Unfixed, IsOp, Rep, Parse;
    BatchRoundTrip(b.sequence, b.ops);
    var handled: seq<BatchOp>;
    handled, s := Iterate(b.rep);
    var sequence := b.Sequence();
    added := [];
    while |added| < |handled|
      invariant |added| <= |handled| && sequence == b.sequence + |added|
      invariant forall i :: 0 <= i < |added| ==> added[i] == (b.sequence + i, handled[i])
    {
      added := added + [(sequence, handled[|added|])];
      sequence := sequence + 1;
    }
  }
}
