/** Group commit: writers queue up, and the one at the front writes for a prefix of the queue. */
module WriteQueues {
  import opened InternalKeys
  import opened WriteBatches

  datatype Outcome = Succeeded | Failed(code: nat)

  /** A thread that called Write; a compaction request has no batch. */
  datatype Writer = Writer(id: nat, batch: Option<seq<BatchOp>>, sync: bool)

  // ----- building a group -----

  function ByteSize(ops: seq<BatchOp>): nat { HEADER + |Records(ops)| }

  /** The sizes of the batches of `ws` together. */
  function TotalSize(ws: seq<Writer>): nat {
    if ws == [] then 0
    else TotalSize(ws[..|ws|-1]) + if ws[|ws|-1].batch.Some? then ByteSize(ws[|ws|-1].batch.value) else 0
  }

  function AllOps(ws: seq<Writer>): seq<BatchOp> {
    if ws == [] then []
    else AllOps(ws[..|ws|-1]) + if ws[|ws|-1].batch.Some? then ws[|ws|-1].batch.value else []
  }

  function MaxSize(first: Writer): nat {
    var size := if first.batch.Some? then ByteSize(first.batch.value) else 0;
    if size <= 0x2_0000 then size + 0x2_0000 else 0x10_0000
  }

  /** Writer `i` may join the group that the first one leads. */
  predicate MayJoin(queue: seq<Writer>, i: nat)
    requires 0 < i < |queue|
  {
    && (queue[i].sync ==> queue[0].sync)
    && (queue[i].batch.Some? ==> TotalSize(queue[..i + 1]) <= MaxSize(queue[0]))
  }

  /** How many writers the first one writes for: the longest prefix of which each may join. */
  function GroupEnd(queue: seq<Writer>, k: nat): (r: nat)
    requires 0 < k <= |queue|
    ensures k <= r <= |queue|
    ensures forall i :: k <= i < r ==> MayJoin(queue, i)
    ensures r < |queue| ==> !MayJoin(queue, r)
    decreases |queue| - k
  {
    if k < |queue| && MayJoin(queue, k) then GroupEnd(queue, k + 1) else k
  }

  lemma {:induction false} GroupEndIs(queue: seq<Writer>, k: nat, r: nat)
    requires 0 < k <= r <= |queue| && (forall i :: k <= i < r ==> MayJoin(queue, i))
             && (r < |queue| ==> !MayJoin(queue, r))
    ensures GroupEnd(queue, k) == r
    decreases r - k
  {
    hide MayJoin;
    if k < r { GroupEndIs(queue, k + 1, r); }
  }

  lemma PrefixSnoc(queue: seq<Writer>, k: nat)
    requires k < |queue|
    ensures TotalSize(queue[..k + 1]) == TotalSize(queue[..k]) + if queue[k].batch.Some?
            then ByteSize(queue[k].batch.value) else 0
    ensures AllOps(queue[..k + 1]) == AllOps(queue[..k]) + if queue[k].batch.Some? then queue[k].batch.value else []
  {
    hide ByteSize;
    assert queue[..k + 1][..k] == queue[..k];
  }

  /** The group of the writer at the front: how many writers, and their operations in order. */
  method BuildBatchGroup(queue: seq<Writer>) returns (k: nat, ops: seq<BatchOp>)
    requires queue != [] && queue[0].batch.Some?
    ensures k == GroupEnd(queue, 1) && ops == AllOps(queue[..k])
    ensures 0 < k <= |queue| && forall i :: 0 <= i < k && queue[i].sync ==> queue[0].sync
    ensures TotalSize(queue[..k]) <= MaxSize(queue[0]) || forall i :: 1 <= i < k ==> queue[i].batch.None?
    ensures k < |queue| ==> (queue[k].sync && !queue[0].sync)
                            || (queue[k].batch.Some? && TotalSize(queue[..k + 1]) > MaxSize(queue[0]))
  {
    hide ByteSize, TotalSize, AllOps, GroupEnd;
    var first := queue[0];
    ops := first.batch.value;
    var size := ByteSize(ops);
    var maxSize := 0x10_0000;
    if size <= 0x2_0000 {
      maxSize := size + 0x2_0000;
    }
    FirstOfGroup(queue);
    k := 1;
    while k < |queue|
      invariant 1 <= k <= |queue| && size == TotalSize(queue[..k]) && ops == AllOps(queue[..k])
      invariant forall i :: 1 <= i < k ==> MayJoin(queue, i)
    {
      var w := queue[k];
      PrefixSnoc(queue, k);
      if w.sync && !first.sync { break; }
      if w.batch.Some? {
        size := size + ByteSize(w.batch.value);
        if size > maxSize { break; }
        ops := ops + w.batch.value;
      }
      k := k + 1;
    }
    GroupEndIs(queue, 1, k);
    SizeLimit(queue, k);
    forall i | 0 < i < k && queue[i].sync ensures queue[0].sync { assert MayJoin(queue, i); }
  }

  lemma FirstOfGroup(queue: seq<Writer>)
    requires queue != [] && queue[0].batch.Some?
    ensures TotalSize(queue[..1]) == ByteSize(queue[0].batch.value) && AllOps(queue[..1]) == queue[0].batch.value
  {
    hide ByteSize;
    PrefixSnoc(queue, 0);
    assert queue[..0] == [];
    assert [] + queue[0].batch.value == queue[0].batch.value;
  }

  // ----- the protocol -----

  /** Where a thread is in Write. */
  datatype Phase =
    | Waiting
    | MakingRoom
    | Writing(last: nat, ops: seq<BatchOp>, first: nat)
    | Returned(outcome: Outcome)

  /** What one leader did: for whom, which operations from which sequence number on, and how it
      ended. */
  datatype Group = Group(members: seq<Writer>, ops: seq<BatchOp>, first: nat, outcome: Outcome)

  datatype State = State(queue: seq<Writer>, phase: map<nat, Phase>, lastSequence: nat, groups: seq<Group>,
                         arrived: seq<Writer>)

  datatype Step =
    | Arrive(w: Writer)
    | Lead(id: nat)
    | Build(id: nat, room: Outcome)
    | Commit(id: nat, outcome: Outcome)

  const NOBODY := State([], map[], 0, [], [])

  ghost predicate Enabled(st: State, step: Step) {
    match step
    case Arrive(w) => w.id !in st.phase
    case Lead(id) => id in st.phase && st.phase[id] == Waiting && st.queue != [] && st.queue[0].id == id
    case Build(id, room) => id in st.phase && st.phase[id] == MakingRoom && st.queue != []
    case Commit(id, outcome) => id in st.phase && st.phase[id].Writing?
  }

  /** The writers popped off the queue up to the one called `last`. */
  function Popped(queue: seq<Writer>, last: nat): nat {
    if queue == [] then 0 else if queue[0].id == last then 1 else 1 + Popped(queue[1..], last)
  }

  lemma {:induction false} PoppedBound(queue: seq<Writer>, last: nat)
    ensures Popped(queue, last) <= |queue|
  {
    if queue != [] { PoppedBound(queue[1..], last); }
  }

  function AllReturned(phase: map<nat, Phase>, ws: seq<Writer>, outcome: Outcome): map<nat, Phase> {
    if ws == [] then phase else AllReturned(phase, ws[..|ws|-1], outcome)[ws[|ws|-1].id := Returned(outcome)]
  }

  ghost function Finish(st: State, last: nat, ops: seq<BatchOp>, first: nat, outcome: Outcome): State {
    PoppedBound(st.queue, last);
    var k := Popped(st.queue, last);
    st.(queue := st.queue[k..], phase := AllReturned(st.phase, st.queue[..k], outcome),
        lastSequence := st.lastSequence + |ops|, groups := st.groups + [Group(st.queue[..k], ops, first, outcome)])
  }

  ghost function Next(st: State, step: Step): State
    requires Enabled(st, step)
  {
    match step
    case Arrive(w) => st.(queue := st.queue + [w], phase := st.phase[w.id := Waiting], arrived := st.arrived + [w])
    case Lead(id) => st.(phase := st.phase[id := MakingRoom])
    case Build(id, room) =>
      if room == Succeeded && st.queue[0].batch.Some? then
        var k := GroupEnd(st.queue, 1);
        st.(phase := st.phase[id := Writing(st.queue[k - 1].id, AllOps(st.queue[..k]), st.lastSequence + 1)])
      else Finish(st, id, [], st.lastSequence + 1, room)
    case Commit(id, outcome) => Finish(st, st.phase[id].last, st.phase[id].ops, st.phase[id].first, outcome)
  }

  // ----- what every run keeps -----

  ghost predicate DistinctIds(ws: seq<Writer>) {
    forall i, j :: 0 <= i < j < |ws| ==> ws[i].id != ws[j].id
  }

  function Members(groups: seq<Group>): seq<Writer> {
    if groups == [] then [] else Members(groups[..|groups|-1]) + groups[|groups|-1].members
  }

  function Taken(groups: seq<Group>): nat {
    if groups == [] then 0 else Taken(groups[..|groups|-1]) + |groups[|groups|-1].ops|
  }

  /** A group is right: no sync writer rides with a leader that does not sync; the batches
      together respect the limit unless the leader's is the only one; the operations are those
      of its members, or none when the leader wrote nothing. */
  ghost predicate GroupOk(g: Group) {
    && g.members != []
    && (forall w :: w in g.members && w.sync ==> g.members[0].sync)
    && (TotalSize(g.members) <= MaxSize(g.members[0]) || forall i :: 1 <= i < |g.members| ==> g.members[i].batch.None?)
    && (g.ops == AllOps(g.members) || (g.ops == [] && |g.members| == 1
       && (g.members[0].batch.None? || g.outcome.Failed?)))
  }

  /** Only the thread at the front of the queue has gone past waiting. */
  ghost predicate FrontLeads(st: State) {
    && (forall i :: 0 <= i < |st.queue| ==> st.queue[i].id in st.phase && !st.phase[st.queue[i].id].Returned?)
    && (forall i :: 1 <= i < |st.queue| ==> st.phase[st.queue[i].id] == Waiting)
  }

  /** The group being written is still the front of the queue. */
  ghost predicate WritingOk(st: State) {
    st.queue != [] && st.queue[0].id in st.phase && st.phase[st.queue[0].id].Writing? ==>
      exists k: nat :: GroupAtFront(st, k)
  }

  ghost predicate GroupAtFront(st: State, k: nat)
    requires st.queue != [] && st.queue[0].id in st.phase && st.phase[st.queue[0].id].Writing?
  {
    var p := st.phase[st.queue[0].id];
    && 0 < k <= |st.queue| && p.last == st.queue[k - 1].id && p.first == st.lastSequence + 1
    && GroupOk(Group(st.queue[..k], p.ops, p.first, Succeeded)) && p.ops == AllOps(st.queue[..k])
  }

  /** Each group got the sequence numbers after those of the groups before it, its members all
      return what its leader returns, and it is right. */
  ghost predicate GroupsOk(st: State) {
    forall i :: 0 <= i < |st.groups| ==>
      && GroupOk(st.groups[i]) && st.groups[i].first == 1 + Taken(st.groups[..i])
      && forall w :: w in st.groups[i].members ==> w.id in st.phase && st.phase[w.id] == Returned(st.groups[i].outcome)
  }

  /** Every writer that arrived was in exactly one group, in order of arrival, or is queued. */
  ghost predicate Roster(st: State) {
    && DistinctIds(st.arrived) && Members(st.groups) + st.queue == st.arrived
    && (forall id :: id in st.phase <==> exists w :: w in st.arrived && w.id == id)
  }

  ghost predicate Inv(st: State) {
    Roster(st) && FrontLeads(st) && WritingOk(st) && GroupsOk(st) && st.lastSequence == Taken(st.groups)
  }

  lemma RosterFacts(st: State)
    requires Roster(st)
    ensures DistinctIds(st.queue)
    ensures forall x, y :: x in Members(st.groups) && y in st.queue ==> x.id != y.id
    ensures forall x :: x in Members(st.groups) || x in st.queue ==> x.id in st.phase
  {
    SuffixDistinct(Members(st.groups), st.queue);
    forall x | x in Members(st.groups) || x in st.queue ensures x.id in st.phase { assert x in st.arrived; }
  }

  lemma InitialInv()
    ensures Inv(NOBODY)
  {}

  lemma {:induction false} SizeLimit(queue: seq<Writer>, k: nat)
    requires 0 < k <= |queue| && forall i :: 1 <= i < k ==> MayJoin(queue, i)
    ensures TotalSize(queue[..k]) <= MaxSize(queue[0]) || forall i :: 1 <= i < k ==> queue[i].batch.None?
  {
    hide ByteSize, MaxSize, TotalSize;
    if k > 1 {
      SizeLimit(queue, k - 1);
      PrefixSnoc(queue, k - 1);
      assert MayJoin(queue, k - 1);
    }
  }

  lemma GroupIsOk(queue: seq<Writer>, first: nat, outcome: Outcome)
    requires queue != []
    ensures var k := GroupEnd(queue, 1); GroupOk(Group(queue[..k], AllOps(queue[..k]), first, outcome))
  {
    hide ByteSize, MaxSize, TotalSize, AllOps;
    var k := GroupEnd(queue, 1);
    SizeLimit(queue, k);
    forall w | w in queue[..k] && w.sync ensures queue[0].sync {
      var i :| 0 <= i < k && queue[i] == w;
      if i > 0 { assert MayJoin(queue, i); }
    }
  }

  lemma {:induction false} ReturnedPhase(phase: map<nat, Phase>, ws: seq<Writer>, outcome: Outcome)
    ensures var r := AllReturned(phase, ws, outcome);
            && (forall w :: w in ws ==> w.id in r && r[w.id] == Returned(outcome))
            && (forall id :: id in r <==> id in phase || exists w :: w in ws && w.id == id)
            && (forall id :: id in phase && (forall w :: w in ws ==> w.id != id) ==> r[id] == phase[id])
  {
    if ws != [] {
      var init, w := ws[..|ws|-1], ws[|ws|-1];
      ReturnedPhase(phase, init, outcome);
      assert ws == init + [w];
      assert forall x :: x in ws <==> x in init || x == w;
    }
  }

  lemma {:induction false} PoppedIs(queue: seq<Writer>, k: nat)
    requires DistinctIds(queue) && 0 < k <= |queue|
    ensures Popped(queue, queue[k - 1].id) == k
  {
    if k > 1 {
      assert queue[0].id != queue[k - 1].id;
      assert DistinctIds(queue[1..]) by { TailDistinct(queue); }
      PoppedIs(queue[1..], k - 1);
      assert queue[1..][k - 2] == queue[k - 1];
    }
  }

  lemma TailDistinct(ws: seq<Writer>)
    requires DistinctIds(ws) && ws != []
    ensures DistinctIds(ws[1..])
  {}

  lemma SuffixDistinct(a: seq<Writer>, b: seq<Writer>)
    requires DistinctIds(a + b)
    ensures DistinctIds(b) && forall x, y :: x in a && y in b ==> x.id != y.id
  {
    var ws := a + b;
    forall i, j | 0 <= i < j < |b| ensures b[i].id != b[j].id {
      assert ws[|a| + i] == b[i] && ws[|a| + j] == b[j];
    }
    forall x, y | x in a && y in b ensures x.id != y.id {
      var i :| 0 <= i < |a| && a[i] == x;
      var j :| 0 <= j < |b| && b[j] == y;
      assert ws[i] == x && ws[|a| + j] == y;
    }
  }

  lemma GroupsSnoc(groups: seq<Group>, g: Group)
    ensures Members(groups + [g]) == Members(groups) + g.members && Taken(groups + [g]) == Taken(groups) + |g.ops|
  {
    assert (groups + [g])[..|groups|] == groups;
  }

  lemma {:induction false} MembersIn(groups: seq<Group>, i: nat, w: Writer)
    requires i < |groups| && w in groups[i].members
    ensures w in Members(groups)
  {
    if i < |groups| - 1 { MembersIn(groups[..|groups|-1], i, w); }
  }

  /** The front of the queue returns: every part of the invariant. */
  lemma FinishKeepsInv(st: State, k: nat, ops: seq<BatchOp>, first: nat, outcome: Outcome)
    requires Inv(st) && 0 < k <= |st.queue| && first == st.lastSequence + 1
    requires GroupOk(Group(st.queue[..k], ops, first, outcome))
    ensures Inv(Finish(st, st.queue[k - 1].id, ops, first, outcome))
  {
    hide GroupOk, WritingOk, GroupsOk, FrontLeads, Roster, Members, Taken, AllReturned, DistinctIds;
    var g := Group(st.queue[..k], ops, first, outcome);
    var st' := st.(queue := st.queue[k..], phase := AllReturned(st.phase, st.queue[..k], outcome),
                   lastSequence := st.lastSequence + |ops|, groups := st.groups + [g]);
    RosterFacts(st);
    PoppedIs(st.queue, k);
    assert st' == Finish(st, st.queue[k - 1].id, ops, first, outcome);
    GroupsSnoc(st.groups, g);
    FinishRoster(st, st', k, g);
    assert st.queue == st.queue[..k] + st.queue[k..];
    SuffixDistinct(st.queue[..k], st.queue[k..]);
    FinishPhases(st, st', k, g);
    FinishGroups(st, st', k, g);
  }

  lemma FinishRoster(st: State, st': State, k: nat, g: Group)
    requires Roster(st) && 0 < k <= |st.queue| && g.members == st.queue[..k] && st'.queue == st.queue[k..]
    requires st'.groups == st.groups + [g] && st'.arrived == st.arrived
             && st'.phase == AllReturned(st.phase, st.queue[..k], g.outcome)
    ensures Roster(st')
  {
    hide Members, DistinctIds, AllReturned;
    GroupsSnoc(st.groups, g);
    assert Members(st.groups) + st.queue[..k] + st.queue[k..] == Members(st.groups) + st.queue;
    SamePhases(st, k, g.outcome);
  }

  /** Reporting an outcome to queued writers leaves the set of known writers alone. */
  lemma SamePhases(st: State, k: nat, outcome: Outcome)
    requires Roster(st) && k <= |st.queue|
    ensures AllReturned(st.phase, st.queue[..k], outcome).Keys == st.phase.Keys
  {
    hide Members, DistinctIds, AllReturned, Roster;
    RosterFacts(st);
    ReturnedPhase(st.phase, st.queue[..k], outcome);
    forall w | w in st.queue[..k] ensures w.id in st.phase { assert w in st.queue; }
  }

  lemma FinishPhases(st: State, st': State, k: nat, g: Group)
    requires FrontLeads(st) && 0 < k <= |st.queue| && g.members == st.queue[..k] && st'.queue == st.queue[k..]
    requires st'.phase == AllReturned(st.phase, st.queue[..k], g.outcome)
    requires forall x, y :: x in st.queue[..k] && y in st.queue[k..] ==> x.id != y.id
    ensures FrontLeads(st') && WritingOk(st')
  {
    hide GroupAtFront;
    ReturnedPhase(st.phase, st.queue[..k], g.outcome);
    forall i | 0 <= i < |st'.queue| ensures st'.queue[i].id in st'.phase && st'.phase[st'.queue[i].id] == Waiting {
      assert st'.queue[i] == st.queue[k + i] && st'.queue[i] in st.queue[k..];
    }
  }

  lemma FinishGroups(st: State, st': State, k: nat, g: Group)
    requires Roster(st) && GroupsOk(st) && st.lastSequence == Taken(st.groups)
    requires 0 < k <= |st.queue| && g.members == st.queue[..k] && GroupOk(g) && g.first == st.lastSequence + 1
    requires st'.groups == st.groups + [g] && st'.phase == AllReturned(st.phase, st.queue[..k], g.outcome)
    ensures GroupsOk(st')
  {
    hide GroupOk, Roster;
    ReturnedPhase(st.phase, st.queue[..k], g.outcome);
    RosterFacts(st);
    forall i | 0 <= i < |st'.groups|
      ensures GroupOk(st'.groups[i]) && st'.groups[i].first == 1 + Taken(st'.groups[..i])
      ensures forall w :: w in st'.groups[i].members ==>
              w.id in st'.phase && st'.phase[w.id] == Returned(st'.groups[i].outcome)
    {
      if i < |st.groups| {
        assert st'.groups[..i] == st.groups[..i] && st'.groups[i] == st.groups[i];
        forall w | w in st.groups[i].members ensures w.id in st'.phase && st'.phase[w.id] == st.phase[w.id] {
          MembersIn(st.groups, i, w);
          forall x | x in st.queue[..k] ensures x.id != w.id { assert x in st.queue; }
        }
      } else {
        assert st'.groups[..i] == st.groups;
      }
    }
  }

  lemma ArriveKeepsInv(st: State, w: Writer)
    requires Inv(st) && w.id !in st.phase
    ensures Inv(Next(st, Arrive(w)))
  {
    hide GroupOk, Roster, FrontLeads, GroupsOk, WritingOk;
    var st' := Next(st, Arrive(w));
    ArriveRoster(st, st', w);
    ArriveFront(st, st', w);
    ArriveGroups(st, st', w);
    ArriveWriting(st, st', w);
  }

  lemma ArriveRoster(st: State, st': State, w: Writer)
    requires Roster(st) && w.id !in st.phase
    requires st' == st.(queue := st.queue + [w], phase := st.phase[w.id := Waiting], arrived := st.arrived + [w])
    ensures Roster(st')
  {
    assert Members(st.groups) + (st.queue + [w]) == st.arrived + [w];
    forall i | 0 <= i < |st.arrived| ensures st.arrived[i].id != w.id { assert st.arrived[i] in st.arrived; }
    assert DistinctIds(st'.arrived);
  }

  lemma ArriveFront(st: State, st': State, w: Writer)
    requires FrontLeads(st) && w.id !in st.phase
    requires st' == st.(queue := st.queue + [w], phase := st.phase[w.id := Waiting], arrived := st'.arrived)
    ensures FrontLeads(st')
  {}

  lemma ArriveGroups(st: State, st': State, w: Writer)
    requires GroupsOk(st) && st'.groups == st.groups && st'.phase == st.phase[w.id := Waiting] && w.id !in st.phase
    ensures GroupsOk(st')
  {
    hide GroupOk;
    forall i, x | 0 <= i < |st.groups| && x in st.groups[i].members
      ensures x.id in st'.phase && st'.phase[x.id] == st.phase[x.id] {
      assert x.id in st.phase;
    }
  }

  lemma ArriveWriting(st: State, st': State, w: Writer)
    requires WritingOk(st) && FrontLeads(st) && w.id !in st.phase
    requires st' == st.(queue := st.queue + [w], phase := st.phase[w.id := Waiting], arrived := st'.arrived)
    ensures WritingOk(st')
  {
    hide GroupOk;
    if st.queue != [] && st.phase[st.queue[0].id].Writing? {
      var k: nat :| GroupAtFront(st, k);
      assert st'.queue[..k] == st.queue[..k];
      assert GroupAtFront(st', k);
    }
  }

  /** A change of the front writer's phase only. */
  lemma PhaseKeepsInv(st: State, p: Phase)
    requires Inv(st) && st.queue != [] && !p.Returned? && WritingOk(st.(phase := st.phase[st.queue[0].id := p]))
    ensures Inv(st.(phase := st.phase[st.queue[0].id := p]))
  {
    hide GroupOk, WritingOk, Roster, FrontLeads, GroupsOk;
    var st' := st.(phase := st.phase[st.queue[0].id := p]);
    RosterFacts(st);
    assert st.queue[0] in st.queue;
    PhaseRoster(st, st', p);
    PhaseFront(st, st', p);
    PhaseGroups(st, st', p);
  }

  lemma PhaseRoster(st: State, st': State, p: Phase)
    requires Roster(st) && st.queue != [] && st.queue[0].id in st.phase
             && st' == st.(phase := st.phase[st.queue[0].id := p])
    ensures Roster(st')
  {
    hide Members, DistinctIds;
    assert forall id :: id in st'.phase <==> id in st.phase;
  }

  lemma PhaseFront(st: State, st': State, p: Phase)
    requires FrontLeads(st) && DistinctIds(st.queue) && !p.Returned?
    requires st.queue != [] && st' == st.(phase := st.phase[st.queue[0].id := p])
    ensures FrontLeads(st')
  {}

  lemma PhaseGroups(st: State, st': State, p: Phase)
    requires GroupsOk(st) && Roster(st) && st.queue != [] && st' == st.(phase := st.phase[st.queue[0].id := p])
    ensures GroupsOk(st')
  {
    hide GroupOk, Roster;
    RosterFacts(st);
    assert st.queue[0] in st.queue;
    forall i, w | 0 <= i < |st.groups| && w in st.groups[i].members
      ensures w.id in st'.phase && st'.phase[w.id] == st.phase[w.id] {
      MembersIn(st.groups, i, w);
    }
  }

  lemma BuildIsAtFront(st: State, k: nat)
    requires st.queue != [] && k == GroupEnd(st.queue, 1)
    ensures var p := Writing(st.queue[k - 1].id, AllOps(st.queue[..k]), st.lastSequence + 1);
            WritingOk(st.(phase := st.phase[st.queue[0].id := p]))
  {
    hide GroupOk, AllOps, GroupEnd;
    GroupIsOk(st.queue, st.lastSequence + 1, Succeeded);
    var st' := st.(phase := st.phase[st.queue[0].id := Writing(st.queue[k - 1].id, AllOps(st.queue[..k]),
      st.lastSequence + 1)]);
    assert GroupAtFront(st', k);
  }

  /** A thread past waiting is the one at the front. */
  lemma LeaderIsFront(st: State, id: nat)
    requires Inv(st) && id in st.phase && (st.phase[id] == MakingRoom || st.phase[id].Writing?)
    ensures st.queue != [] && st.queue[0].id == id
  {
    hide GroupOk, WritingOk;
    var w :| w in st.arrived && w.id == id;
    if w in st.queue {
      var i :| 0 <= i < |st.queue| && st.queue[i] == w;
    } else {
      assert w in Members(st.groups);
      var i := GroupOf(st.groups, w);
    }
  }

  lemma {:induction false} GroupOf(groups: seq<Group>, w: Writer) returns (i: nat)
    requires w in Members(groups)
    ensures i < |groups| && w in groups[i].members
  {
    if w in groups[|groups|-1].members { i := |groups| - 1; } else { i := GroupOf(groups[..|groups|-1], w); }
  }

  lemma OneMember(st: State, room: Outcome)
    requires st.queue != [] && (room.Failed? || st.queue[0].batch.None?)
    ensures GroupOk(Group(st.queue[..1], [], st.lastSequence + 1, room))
  {}

  lemma StepKeepsInv(st: State, step: Step)
    requires Inv(st) && Enabled(st, step)
    ensures Inv(Next(st, step))
  {
    hide GroupOk, Inv, AllOps, WritingOk, Finish;
    match step
    case Arrive(w) => ArriveKeepsInv(st, w);
    case Lead(id) =>
      NothingWritten(st);
      PhaseKeepsInv(st, MakingRoom);
    case Build(id, room) =>
      LeaderIsFront(st, id);
      if room == Succeeded && st.queue[0].batch.Some? {
        var k := GroupEnd(st.queue, 1);
        BuildIsAtFront(st, k);
        PhaseKeepsInv(st, Writing(st.queue[k - 1].id, AllOps(st.queue[..k]), st.lastSequence + 1));
      } else {
        OneMember(st, room);
        FinishKeepsInv(st, 1, [], st.lastSequence + 1, room);
      }
    case Commit(id, outcome) =>
      LeaderIsFront(st, id);
      CommitGroup(st, outcome);
  }

  lemma NothingWritten(st: State)
    requires st.queue != []
    ensures WritingOk(st.(phase := st.phase[st.queue[0].id := MakingRoom]))
  {}

  lemma CommitGroup(st: State, outcome: Outcome)
    requires Inv(st) && st.queue != [] && st.queue[0].id in st.phase && st.phase[st.queue[0].id].Writing?
    ensures var p := st.phase[st.queue[0].id]; Inv(Finish(st, p.last, p.ops, p.first, outcome))
  {
    hide Finish, AllOps, FrontLeads, GroupsOk, GroupOk, Roster, Inv;
    WritingPart(st);
    var p := st.phase[st.queue[0].id];
    var k: nat :| GroupAtFront(st, k);
    OutcomeOfGroup(Group(st.queue[..k], p.ops, p.first, Succeeded), outcome);
    FinishKeepsInv(st, k, p.ops, p.first, outcome);
  }

  lemma WritingPart(st: State)
    requires Inv(st)
    ensures WritingOk(st)
  {}

  lemma OutcomeOfGroup(g: Group, outcome: Outcome)
    requires GroupOk(g) && g.ops == AllOps(g.members)
    ensures GroupOk(g.(outcome := outcome))
  {}

  ghost predicate IsRun(st: State, steps: seq<Step>)
    decreases |steps|
  {
    steps == [] || (Enabled(st, steps[0]) && IsRun(Next(st, steps[0]), steps[1..]))
  }

  ghost function Final(st: State, steps: seq<Step>): State
    requires IsRun(st, steps)
    decreases |steps|
  {
    if steps == [] then st else Final(Next(st, steps[0]), steps[1..])
  }

  lemma {:induction false} RunKeepsInv(st: State, steps: seq<Step>)
    requires Inv(st) && IsRun(st, steps)
    ensures Inv(Final(st, steps))
    decreases |steps|
  {
    hide Inv, Enabled, Next;
    if steps != [] {
      StepKeepsInv(st, steps[0]);
      RunKeepsInv(Next(st, steps[0]), steps[1..]);
    }
  }

  predicate IsLeader(st: State, id: nat) { id in st.phase && (st.phase[id] == MakingRoom || st.phase[id].Writing?) }

  /** Over all schedules: at most one thread writes; the groups are the writers in the order in
      which they came, each in one group; they get consecutive ranges of sequence numbers. */
  lemma EveryScheduleGroupsInOrder(steps: seq<Step>, a: nat, b: nat)
    requires IsRun(NOBODY, steps)
    ensures var st := Final(NOBODY, steps);
            && Members(st.groups) + st.queue == st.arrived && DistinctIds(st.arrived) && GroupsOk(st)
            && st.lastSequence == Taken(st.groups)
            && (IsLeader(st, a) ==> st.queue != [] && st.queue[0].id == a)
            && (IsLeader(st, a) && IsLeader(st, b) ==> a == b)
  {
    hide Enabled, Next, GroupOk;
    InitialInv();
    RunKeepsInv(NOBODY, steps);
    var st := Final(NOBODY, steps);
    if IsLeader(st, a) { LeaderIsFront(st, a); }
    if IsLeader(st, b) { LeaderIsFront(st, b); }
  }
}
