/** What the operations mean for a plain map, and that the history of a database is that map at
    every moment. */
module PlainMaps {
  import opened InternalKeys
  import opened Engine

  /** A put sets the key, a deletion removes it. */
  function Perform(m: map<UserKey, Bytes>, op: Op): map<UserKey, Bytes> {
    match op.kind
    case TypeValue => m[op.user := op.value]
    case TypeDeletion => m - {op.user}
  }

  /** The operations one after the other. */
  function PerformAll(m: map<UserKey, Bytes>, ops: seq<Op>): map<UserKey, Bytes> {
    if ops == [] then m else Perform(PerformAll(m, ops[..|ops|-1]), ops[|ops|-1])
  }

  lemma {:induction false} PerformedTwice(m: map<UserKey, Bytes>, a: seq<Op>, b: seq<Op>)
    ensures PerformAll(m, a + b) == PerformAll(PerformAll(m, a), b)
  {
    hide Perform;
    if b == [] {
      assert a + b == a;
    } else {
      assert (a + b)[..|a + b| - 1] == a + b[..|b|-1];
      PerformedTwice(m, a, b[..|b|-1]);
    }
  }

  /** The last operation on a key decides. */
  lemma {:induction false} LastOperationDecides(m: map<UserKey, Bytes>, ops: seq<Op>, i: nat)
    requires i < |ops| && forall j :: i < j < |ops| ==> ops[j].user != ops[i].user
    ensures Lookup(PerformAll(m, ops), ops[i].user) == if ops[i].kind == TypeValue then Some(ops[i].value) else None
  {
    var init := ops[..|ops|-1];
    if i < |init| {
      assert forall j :: 0 <= j < |init| ==> init[j] == ops[j];
      LastOperationDecides(m, init, i);
    }
  }

  lemma {:induction false} OtherKeysStay(m: map<UserKey, Bytes>, ops: seq<Op>, u: UserKey)
    requires forall j :: 0 <= j < |ops| ==> ops[j].user != u
    ensures Lookup(PerformAll(m, ops), u) == Lookup(m, u)
  {
    if ops != [] { OtherKeysStay(m, ops[..|ops|-1], u); }
  }

  // ----- one write -----

  lemma MapAfter(h: seq<Entry>, op: Op, n: nat, s: nat)
    ensures MapAt(h + [Stamped(op, n)], s) == if n <= s then Perform(MapAt(h, s), op) else MapAt(h, s)
  {
    assert (h + [Stamped(op, n)])[..|h|] == h;
  }

  /** Beyond the last write nothing changes. */
  lemma {:induction false} MapBeyond(h: seq<Entry>, s: nat, t: nat)
    requires s <= t && forall e :: e in h ==> e.key.sequence <= s
    ensures MapAt(h, t) == MapAt(h, s)
  {
    hide Apply;
    if h != [] {
      assert h[|h|-1] in h;
      forall e | e in h[..|h|-1] ensures e.key.sequence <= s { assert e in h; }
      MapBeyond(h[..|h|-1], s, t);
    }
  }

  ghost predicate Bounded(st: State) {
    forall e :: e in st.history ==> e.key.sequence <= st.lastSequence
  }

  ghost function MapNow(st: State): map<UserKey, Bytes> { MapAt(st.history, st.lastSequence) }

  /** `r` follows `st`, with the operations performed on the map and every earlier map as it was. */
  ghost predicate Follows(st: State, ops: seq<Op>, r: State) {
    && Bounded(r) && st.lastSequence <= r.lastSequence
    && MapNow(r) == PerformAll(MapNow(st), ops)
    && forall s: nat :: s <= st.lastSequence ==> MapAt(r.history, s) == MapAt(st.history, s)
  }

  lemma FollowsTwice(st: State, a: seq<Op>, mid: State, b: seq<Op>, r: State)
    requires Follows(st, a, mid) && Follows(mid, b, r)
    ensures Follows(st, a + b, r)
  {
    PerformedTwice(MapNow(st), a, b);
  }

  lemma WriteOneFollows(st: State, op: Op)
    requires Bounded(st)
    ensures Follows(st, [op], WriteOne(st, op))
  {
    hide Perform;
    var n := st.lastSequence + 1;
    MapAfter(st.history, op, n, n);
    MapBeyond(st.history, st.lastSequence, n);
    assert [op][..0] == [] && PerformAll(MapNow(st), []) == MapNow(st);
    assert PerformAll(MapNow(st), [op]) == Perform(MapNow(st), op);
    forall s: nat | s <= st.lastSequence ensures MapAt(WriteOne(st, op).history, s) == MapAt(st.history, s) {
      MapAfter(st.history, op, n, s);
    }
  }

  lemma NothingFollows(st: State, r: State)
    requires Bounded(st) && r.history == st.history && st.lastSequence <= r.lastSequence
    ensures Follows(st, [], r)
  {
    MapBeyond(st.history, st.lastSequence, r.lastSequence);
  }

  /** A batch is performed on the map operation by operation, and no earlier map changes. */
  lemma {:induction false} WriteBatchFollows(st: State, ops: seq<Op>)
    requires Bounded(st)
    ensures Follows(st, ops, WriteBatch(st, ops)) && WriteBatch(st, ops).lastSequence == st.lastSequence + |ops|
  {
    hide Follows, WriteOne;
    if ops == [] {
      NothingFollows(st, st);
    } else {
      var init, op := ops[..|ops|-1], ops[|ops|-1];
      WriteBatchFollows(st, init);
      var mid := WriteBatch(st, init);
      FollowsBounded(st, init, mid);
      WriteOneFollows(mid, op);
      FollowsTwice(st, init, mid, [op], WriteOne(mid, op));
      assert init + [op] == ops;
      OneFurther(mid, op);
    }
  }

  lemma FollowsBounded(st: State, ops: seq<Op>, r: State)
    requires Follows(st, ops, r)
    ensures Bounded(r) && st.lastSequence <= r.lastSequence
  {}

  lemma OneFurther(st: State, op: Op)
    ensures WriteOne(st, op).lastSequence == st.lastSequence + 1
  {}

  // ----- every run -----

  /** The operations that a run wrote. */
  function OpsOf(steps: seq<Step>): seq<Op> {
    if steps == [] then [] else (if steps[0].Write? then steps[0].ops else []) + OpsOf(steps[1..])
  }

  lemma StepFollows(st: State, step: Step)
    requires Bounded(st) && Possible(st, step)
    ensures Follows(st, if step.Write? then step.ops else [], Performed(st, step))
  {
    hide Follows, IsMerged, MayFlush;
    if step.Write? { WriteBatchFollows(st, step.ops); } else { NothingFollows(st, Performed(st, step)); }
  }

  lemma {:induction false} RunFollows(st: State, steps: seq<Step>)
    requires Bounded(st) && IsCodeRun(st, steps)
    ensures Follows(st, OpsOf(steps), CodeFinal(st, steps))
    decreases |steps|
  {
    hide Follows, Possible, Performed;
    if steps == [] {
      NothingFollows(st, st);
    } else {
      var step, mid := steps[0], Performed(st, steps[0]);
      var ops := if step.Write? then step.ops else [];
      StepFollows(st, step);
      FollowsBounded(st, ops, mid);
      RunFollows(mid, steps[1..]);
      FollowsTwice(st, ops, mid, OpsOf(steps[1..]), CodeFinal(mid, steps[1..]));
    }
  }

  lemma {:induction false} RunSplits(st: State, a: seq<Step>, b: seq<Step>)
    requires IsCodeRun(st, a + b)
    ensures IsCodeRun(st, a) && IsCodeRun(CodeFinal(st, a), b)
    ensures CodeFinal(st, a + b) == CodeFinal(CodeFinal(st, a), b)
    decreases |a|
  {
    hide Possible, Performed;
    if a == [] {
      assert a + b == b;
    } else {
      assert (a + b)[0] == a[0] && (a + b)[1..] == a[1..] + b;
      RunSplits(Performed(st, a[0]), a[1..], b);
    }
  }

  /** What can still be read as of some moment of a run, now or under a snapshot taken then, is
      the plain map on which the operations written until that moment have been performed. */
  lemma ReadsSeeWritesUntil(steps: seq<Step>, k: nat, u: UserKey)
    requires k <= |steps| && IsCodeRun(EMPTY_DB, steps) && EveryOutcomeFits(EMPTY_DB, steps)
    ensures IsCodeRun(EMPTY_DB, steps[..k])
    ensures var st, s := CodeFinal(EMPTY_DB, steps), CodeFinal(EMPTY_DB, steps[..k]).lastSequence;
            s == st.lastSequence || s in st.snapshots ==>
              Read(Stored(st), u, s) == Lookup(PerformAll(map[], OpsOf(steps[..k])), u)
  {
    hide EveryOutcomeFits, IsCodeRun, CodeFinal, OpsOf, Read, Stored, Lookup;
    assert steps == steps[..k] + steps[k..];
    RunSplits(EMPTY_DB, steps[..k], steps[k..]);
    var mid, st := CodeFinal(EMPTY_DB, steps[..k]), CodeFinal(EMPTY_DB, steps);
    RunFollows(EMPTY_DB, steps[..k]);
    assert MapNow(EMPTY_DB) == map[];
    RunFollows(mid, steps[k..]);
    if mid.lastSequence == st.lastSequence || mid.lastSequence in st.snapshots {
      RunAnswersLikeMap(steps, u, mid.lastSequence);
    }
  }
}
