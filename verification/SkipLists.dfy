/** The skip list of the memtable, and searches that run while nodes are linked in. */
module SkipLists {
  import opened InternalKeys

  const MAX_HEIGHT: nat := 12

  /** A key is represented by its rank in the order of the comparator. */
  type Key = real

  /** `next[l]` is the successor on level `l`. */
  datatype Node = Node(key: Key, next: seq<Option<nat>>)

  /** Node 0 is the head; `levels[l]` lists the nodes linked on level `l` after it. */
  function Path(levels: seq<seq<nat>>, l: nat): seq<nat>
    requires l < |levels|
  {
    [0] + levels[l]
  }

  ghost predicate LinkAt(nodes: seq<Node>, path: seq<nat>, l: nat, k: nat)
    requires k < |path|
  {
    && path[k] < |nodes| && l < |nodes[path[k]].next|
    && nodes[path[k]].next[l] == if k + 1 < |path| then Some(path[k + 1]) else None
  }

  /** Following the pointers of level `l` from the head visits its path. */
  ghost predicate Linked(nodes: seq<Node>, levels: seq<seq<nat>>, l: nat)
    requires l < |levels|
  {
    forall k :: 0 <= k < |Path(levels, l)| ==> LinkAt(nodes, Path(levels, l), l, k)
  }

  /** Keys increase along a level, which never comes back to the head. */
  ghost predicate Increasing(nodes: seq<Node>, list: seq<nat>) {
    && (forall k :: 0 <= k < |list| ==> 0 < list[k] < |nodes|)
    && forall k, l :: 0 <= k < l < |list| ==>
       list[k] < |nodes| && list[l] < |nodes| && nodes[list[k]].key < nodes[list[l]].key
  }

  /** A node on level `l` is on the level below. */
  ghost predicate Within(levels: seq<seq<nat>>, l: nat)
    requires 0 < l < |levels|
  {
    forall x :: x in levels[l] ==> x in levels[l - 1]
  }

  ghost predicate Shape(nodes: seq<Node>, levels: seq<seq<nat>>, maxHeight: nat) {
    && |levels| == MAX_HEIGHT && 1 <= maxHeight <= MAX_HEIGHT && nodes != [] && |nodes[0].next| == MAX_HEIGHT
    && (forall l :: 0 <= l < MAX_HEIGHT ==> Linked(nodes, levels, l) && Increasing(nodes, levels[l]))
    && (forall l :: 0 < l < MAX_HEIGHT ==> Within(levels, l))
    && (forall l :: maxHeight <= l < MAX_HEIGHT ==> levels[l] == [])
  }

  /** `p` is where `key` belongs among the keys of `list`. */
  ghost predicate Place(nodes: seq<Node>, list: seq<nat>, key: Key, p: nat) {
    && p <= |list|
    && (forall k :: 0 <= k < |list| ==> list[k] < |nodes|)
    && (forall k :: 0 <= k < p ==> nodes[list[k]].key < key)
    && (forall k :: p <= k < |list| ==> nodes[list[k]].key >= key)
  }

  // ----- a search, step by step -----

  /** A search for `key` is at node `x` on level `l`, which lies before the key. */
  ghost predicate Searching(nodes: seq<Node>, levels: seq<seq<nat>>, x: nat, l: nat, key: Key) {
    && l < |levels| && x in Path(levels, l) && x < |nodes| && (x == 0 || nodes[x].key < key)
  }

  /** Nodes are only added to levels, and keep their keys. */
  ghost predicate Grows(nodes: seq<Node>, levels: seq<seq<nat>>, nodes': seq<Node>, levels': seq<seq<nat>>) {
    && |nodes| <= |nodes'| && |levels| == |levels'|
    && (forall x :: 0 <= x < |nodes| ==> nodes'[x].key == nodes[x].key)
    && (forall l, x :: 0 <= l < |levels| && x in levels[l] ==> x in levels'[l])
  }

  lemma PositionOf(nodes: seq<Node>, levels: seq<seq<nat>>, x: nat, l: nat, key: Key) returns (k: nat)
    requires Searching(nodes, levels, x, l, key)
    ensures l < |levels| && k <= |levels[l]| && Path(levels, l)[k] == x
  {
    k :| 0 <= k < |Path(levels, l)| && Path(levels, l)[k] == x;
  }

  /** One step of a search: to the next node while that is before the key, else one level down;
      at level 0 the successor is the first node at or after the key. */
  lemma SearchStep(nodes: seq<Node>, levels: seq<seq<nat>>, maxHeight: nat, x: nat, l: nat, key: Key, k: nat)
    requires Shape(nodes, levels, maxHeight) && Searching(nodes, levels, x, l, key)
    requires k <= |levels[l]| && x == Path(levels, l)[k]
    ensures l < |nodes[x].next| && nodes[x].next[l] == if k < |levels[l]| then Some(levels[l][k]) else None
    ensures nodes[x].next[l].Some? ==> nodes[x].next[l].value < |nodes|
    ensures if nodes[x].next[l].Some? && nodes[nodes[x].next[l].value].key < key
            then Searching(nodes, levels, nodes[x].next[l].value, l, key)
            else Place(nodes, levels[l], key, k)
    ensures l > 0 ==> Searching(nodes, levels, x, l - 1, key)
  {
    assert Linked(nodes, levels, l) && LinkAt(nodes, Path(levels, l), l, k);
    assert Increasing(nodes, levels[l]);
    assert l > 0 ==> Within(levels, l);
    if k > 0 { assert levels[l][k - 1] == x; }
  }

  /** What a search finds, whenever it finishes: no key that was in the list when it began, at or
      after the target, comes before the node found. */
  lemma NothingMissed(nodes: seq<Node>, levels: seq<seq<nat>>, nodes': seq<Node>, levels': seq<seq<nat>>,
                      maxHeight: nat, key: Key, p: nat, y: nat)
    requires Shape(nodes', levels', maxHeight) && |levels| > 0 && Grows(nodes, levels, nodes', levels')
             && Place(nodes', levels'[0], key, p)
    requires y in levels[0] && y < |nodes| && nodes[y].key >= key
    ensures p < |levels'[0]| && nodes'[levels'[0][p]].key <= nodes[y].key
  {
    assert Increasing(nodes', levels'[0]);
    var k :| 0 <= k < |levels'[0]| && levels'[0][k] == y;
  }

  // ----- a search among the stores of an insertion -----

  /** A reader is at a node and a level, or has found its answer. */
  datatype Look = At(x: nat, level: nat) | Done(found: Option<nat>)

  datatype Scene = Scene(nodes: seq<Node>, levels: seq<seq<nat>>, maxHeight: nat, look: Look)

  /** The reader loads one pointer and moves. */
  ghost predicate ReaderMoves(s: Scene, t: Scene, key: Key) {
    && t.nodes == s.nodes && t.levels == s.levels && t.maxHeight == s.maxHeight
    && s.look.At? && s.look.x < |s.nodes| && s.look.level < |s.nodes[s.look.x].next|
    && var next := s.nodes[s.look.x].next[s.look.level];
       (next.Some? ==> next.value < |s.nodes|)
       && t.look == if next.Some? && s.nodes[next.value].key < key then At(next.value, s.look.level)
                    else if s.look.level == 0 then Done(next) else At(s.look.x, s.look.level - 1)
  }

  /** The writer stores a pointer, a new node or a height; the list is whole afterwards. */
  ghost predicate WriterStores(s: Scene, t: Scene) {
    t.look == s.look && Shape(t.nodes, t.levels, t.maxHeight) && Grows(s.nodes, s.levels, t.nodes, t.levels)
  }

  ghost predicate Schedule(run: seq<Scene>, key: Key) {
    forall i :: 0 < i < |run| ==> ReaderMoves(run[i - 1], run[i], key) || WriterStores(run[i - 1], run[i])
  }

  /** The answer is at or after the key, and nothing of the list at the start lies between. */
  ghost predicate Answer(start: Scene, now: Scene, key: Key, found: Option<nat>)
    requires start.levels != [] && now.levels != []
  {
    && (found.Some? ==> found.value < |now.nodes| && found.value in now.levels[0] && now.nodes[found.value].key >= key)
    && forall y :: y in start.levels[0] && y < |start.nodes| && start.nodes[y].key >= key ==>
         found.Some? && now.nodes[found.value].key <= start.nodes[y].key
  }

  ghost predicate OnTrack(start: Scene, now: Scene, key: Key) {
    && Shape(now.nodes, now.levels, now.maxHeight) && |start.levels| == MAX_HEIGHT
       && Grows(start.nodes, start.levels, now.nodes, now.levels)
    && match now.look
       case At(x, l) => Searching(now.nodes, now.levels, x, l, key)
       case Done(found) => Answer(start, now, key, found)
  }

  lemma MoveKeeps(start: Scene, s: Scene, t: Scene, key: Key)
    requires OnTrack(start, s, key) && ReaderMoves(s, t, key)
    ensures OnTrack(start, t, key)
  {
    hide Shape, Place, Searching, Grows, Increasing;
    var x, l := s.look.x, s.look.level;
    var k := PositionOf(s.nodes, s.levels, x, l, key);
    SearchStep(s.nodes, s.levels, s.maxHeight, x, l, key, k);
    if t.look.Done? { FoundAnswers(start, t, key, k); }
  }

  lemma FoundAnswers(start: Scene, t: Scene, key: Key, p: nat)
    requires Shape(t.nodes, t.levels, t.maxHeight) && |start.levels| == MAX_HEIGHT
             && Grows(start.nodes, start.levels, t.nodes, t.levels)
    requires Place(t.nodes, t.levels[0], key, p)
    ensures Answer(start, t, key, if p < |t.levels[0]| then Some(t.levels[0][p]) else None)
  {
    assert Increasing(t.nodes, t.levels[0]);
    forall y | y in start.levels[0] && y < |start.nodes| && start.nodes[y].key >= key
      ensures p < |t.levels[0]| && t.nodes[t.levels[0][p]].key <= start.nodes[y].key
    {
      NothingMissed(start.nodes, start.levels, t.nodes, t.levels, t.maxHeight, key, p, y);
    }
  }

  lemma StoreKeeps(start: Scene, s: Scene, t: Scene, key: Key)
    requires OnTrack(start, s, key) && WriterStores(s, t)
    ensures OnTrack(start, t, key)
  {
    hide Shape;
    assert forall l, y :: 0 <= l < |start.levels| && y in start.levels[l] ==> y in s.levels[l];
  }

  /** However stores and steps interleave, the reader misses nothing that was there when it began. */
  lemma {:induction false} EveryScheduleFinds(run: seq<Scene>, key: Key)
    requires run != [] && Schedule(run, key) && OnTrack(run[0], run[0], key) && run[0].look.At?
    ensures OnTrack(run[0], run[|run| - 1], key)
  {
    hide OnTrack, ReaderMoves, WriterStores;
    if |run| > 1 {
      var front, n := run[..|run| - 1], |run| - 1;
      EveryScheduleFinds(front, key);
      if ReaderMoves(run[n - 1], run[n], key) {
        MoveKeeps(run[0], run[n - 1], run[n], key);
      } else {
        StoreKeeps(run[0], run[n - 1], run[n], key);
      }
    }
  }

  /** A reader starts at the head, on whatever level it takes for the top one; if it comes to an
      answer, that is the right one. */
  lemma ReaderMissesNothing(run: seq<Scene>, key: Key)
    requires run != [] && Schedule(run, key) && Shape(run[0].nodes, run[0].levels, run[0].maxHeight)
    requires run[0].look.At? && run[0].look.x == 0 && run[0].look.level < MAX_HEIGHT
    ensures run[0].levels != [] && run[|run| - 1].levels != []
    ensures run[|run| - 1].look.Done? ==> Answer(run[0], run[|run| - 1], key, run[|run| - 1].look.found)
  {
    hide Schedule, Answer;
    assert OnTrack(run[0], run[0], key);
    EveryScheduleFinds(run, key);
  }

  // ----- the single stores of a writer -----

  /** A store of the height, of a node that nothing points to yet, or of one pointer. */
  datatype Store = RaiseTo(height: nat) | NewNodeOf(node: Node) | SetNext(x: nat, level: nat, to: Option<nat>)

  ghost predicate OneStore(s: Scene, store: Store, t: Scene) {
    && t.look == s.look
    && match store
       case RaiseTo(height) => t == s.(maxHeight := height)
       case NewNodeOf(node) => t == s.(nodes := s.nodes + [node]) && forall l :: 0 <= l < |s.levels| ==>
         |s.nodes| !in s.levels[l]
       case SetNext(x, l, to) =>
         && x < |s.nodes| && l < |s.nodes[x].next| && t.nodes == WithLink(s.nodes, x, l, to)
            && t.maxHeight == s.maxHeight
         && |t.levels| == |s.levels| && forall m :: 0 <= m < |s.levels| && m != l ==> t.levels[m] == s.levels[m]
  }

  /** The scenes between the stores of a writer: each comes from the one before by one store, and
      the list is whole in it. */
  ghost predicate Stores(trace: seq<Scene>, stores: seq<Store>) {
    && |trace| == |stores| + 1
    && forall i :: 0 <= i < |stores| ==>
       OneStore(trace[i], stores[i], trace[i + 1]) && WriterStores(trace[i], trace[i + 1])
  }

  lemma NoStore(s: Scene)
    ensures Leads(s, [s], [], s)
  {}

  lemma OneStoreMore(trace: seq<Scene>, stores: seq<Store>, store: Store, s: Scene)
    requires Stores(trace, stores) && OneStore(trace[|stores|], store, s) && WriterStores(trace[|stores|], s)
    ensures Stores(trace + [s], stores + [store])
  {
    hide OneStore, WriterStores;
    var trace', stores' := trace + [s], stores + [store];
    forall i | 0 <= i < |stores'|
      ensures OneStore(trace'[i], stores'[i], trace'[i + 1]) && WriterStores(trace'[i], trace'[i + 1]) {
      if i < |stores| { assert OneStore(trace[i], stores[i], trace[i + 1]); }
    }
  }

  ghost predicate Leads(start: Scene, trace: seq<Scene>, stores: seq<Store>, now: Scene) {
    Stores(trace, stores) && trace[0] == start && trace[|trace| - 1] == now
  }

  lemma LeadsOn(start: Scene, trace: seq<Scene>, stores: seq<Store>, now: Scene, store: Store, next: Scene)
    requires Leads(start, trace, stores, now) && OneStore(now, store, next) && WriterStores(now, next)
    ensures Leads(start, trace + [next], stores + [store], next)
  {
    hide OneStore, WriterStores;
    OneStoreMore(trace, stores, store, next);
  }

  /** The stores of one writer after the other. */
  lemma {:induction false} StoresJoin(a: seq<Scene>, u: seq<Store>, b: seq<Scene>, v: seq<Store>)
    requires Stores(a, u) && Stores(b, v) && a[|u|] == b[0]
    ensures Stores(a + b[1..], u + v)
  {
    hide OneStore, WriterStores;
    if v == [] {
      assert a + b[1..] == a && u + v == u;
    } else {
      var n := |v| - 1;
      assert Stores(b[..n + 1], v[..n]) by {
        forall i | 0 <= i < n
          ensures OneStore(b[..n + 1][i], v[..n][i], b[..n + 1][i + 1])
                  && WriterStores(b[..n + 1][i], b[..n + 1][i + 1]) {
          assert OneStore(b[i], v[i], b[i + 1]);
        }
      }
      StoresJoin(a, u, b[..n + 1], v[..n]);
      var front := a + b[..n + 1][1..];
      assert front[|u + v[..n]|] == b[n] && OneStore(b[n], v[n], b[n + 1]);
      OneStoreMore(front, u + v[..n], v[n], b[n + 1]);
      assert front + [b[n + 1]] == a + b[1..] && u + v[..n] + [v[n]] == u + v;
    }
  }

  // ----- a reader among them -----

  /** In `run` a reader moves while a writer goes through the scenes of `trace`; `at` says how many
      stores have happened in each scene of the run. */
  ghost predicate Interleaves(run: seq<Scene>, at: seq<nat>, trace: seq<Scene>, key: Key) {
    && |at| == |run|
    && (forall i :: 0 <= i < |run| ==> at[i] < |trace| && run[i] == trace[at[i]].(look := run[i].look))
    && forall i :: 0 < i < |run| ==>
         if at[i] == at[i - 1] then ReaderMoves(run[i - 1], run[i], key)
             else at[i] == at[i - 1] + 1 && run[i].look == run[i - 1].look
  }

  lemma InterleavingIsSchedule(run: seq<Scene>, at: seq<nat>, trace: seq<Scene>, stores: seq<Store>, key: Key)
    requires Stores(trace, stores) && Interleaves(run, at, trace, key)
    ensures Schedule(run, key)
  {
    hide OneStore, ReaderMoves, Shape, Grows;
    forall i | 0 < i < |run| ensures ReaderMoves(run[i - 1], run[i], key) || WriterStores(run[i - 1], run[i]) {
      if at[i] != at[i - 1] { assert WriterStores(trace[at[i - 1]], trace[at[i - 1] + 1]); }
    }
  }

  /** A reader that starts at the head, on whatever level it takes for the top one. */
  ghost predicate StartsAtHead(s: Scene) {
    s.look.At? && s.look.x == 0 && s.look.level < MAX_HEIGHT
  }

  ghost predicate FindsAll(run: seq<Scene>, key: Key)
    requires run != []
  {
    var first, last := run[0], run[|run| - 1];
    first.levels != [] && last.levels != [] && (last.look.Done? ==> Answer(first, last, key, last.look.found))
  }

  /** Whenever a reader starts among these scenes and however it interleaves with them: its answer
      is at or after its key and skips nothing that was there when it started. */
  ghost predicate ServesReaders(trace: seq<Scene>) {
    forall run: seq<Scene>, at: seq<nat>, key: Key ::
        run != [] && Interleaves(run, at, trace, key) && StartsAtHead(run[0]) ==> FindsAll(run, key)
  }

  lemma {:induction false} WholeAt(trace: seq<Scene>, stores: seq<Store>, i: nat)
    requires Stores(trace, stores) && Shape(trace[0].nodes, trace[0].levels, trace[0].maxHeight) && i < |trace|
    ensures Shape(trace[i].nodes, trace[i].levels, trace[i].maxHeight)
  {
    hide OneStore, Shape, Grows;
    if i > 0 { assert WriterStores(trace[i - 1], trace[i - 1 + 1]); }
  }

  lemma StoresServeReaders(trace: seq<Scene>, stores: seq<Store>)
    requires Stores(trace, stores) && Shape(trace[0].nodes, trace[0].levels, trace[0].maxHeight)
    ensures ServesReaders(trace)
  {
    hide Stores, Interleaves, Schedule, Answer, Shape;
    forall run: seq<Scene>, at: seq<nat>, key: Key | run != [] && Interleaves(run, at, trace, key)
      && StartsAtHead(run[0]) ensures FindsAll(run, key) {
      InterleavingIsSchedule(run, at, trace, stores, key);
      StartScene(run, at, trace, key);
      WholeAt(trace, stores, at[0]);
      ReaderMissesNothing(run, key);
    }
  }

  lemma StartScene(run: seq<Scene>, at: seq<nat>, trace: seq<Scene>, key: Key)
    requires run != [] && Interleaves(run, at, trace, key)
    ensures at != [] && at[0] < |trace| && run[0] == trace[at[0]].(look := run[0].look)
  {}

  // ----- the stores of an insertion -----

  /** What follows place `p` of a level. */
  function Successor(list: seq<nat>, p: nat): Option<nat> {
    if p < |list| then Some(list[p]) else None
  }

  ghost predicate PlacesIn(levels: seq<seq<nat>>, places: seq<nat>) {
    |levels| == |places| == MAX_HEIGHT && forall l :: 0 <= l < MAX_HEIGHT ==> places[l] <= |levels[l]|
  }

  /** From the bottom up, on each level: the new node points to its successor, then its predecessor
      points to it. */
  ghost function LinkStores(levels: seq<seq<nat>>, places: seq<nat>, x: nat, n: nat): seq<Store>
    requires PlacesIn(levels, places) && n <= MAX_HEIGHT
  {
    if n == 0 then []
    else LinkStores(levels, places, x, n - 1)
         + [SetNext(x, n - 1, Successor(levels[n - 1], places[n - 1])),
           SetNext(Path(levels, n - 1)[places[n - 1]], n - 1, Some(x))]
  }

  ghost function InsertStores(s: Scene, places: seq<nat>, key: Key, height: nat): seq<Store>
    requires PlacesIn(s.levels, places) && height <= MAX_HEIGHT
  {
    (if height > s.maxHeight then [RaiseTo(height)] else [])
    + [NewNodeOf(Node(key, NoLinks(height)))] + LinkStores(s.levels, places, |s.nodes|, height)
  }

  // ----- one store at a time -----

  function WithLink(nodes: seq<Node>, x: nat, l: nat, to: Option<nat>): seq<Node>
    requires x < |nodes| && l < |nodes[x].next|
  {
    nodes[x := nodes[x].(next := nodes[x].next[l := to])]
  }

  /** A pointer of a node that is not linked on that level may be set to anything. */
  lemma PrepareKeeps(nodes: seq<Node>, levels: seq<seq<nat>>, maxHeight: nat, x: nat, i: nat, to: Option<nat>)
    requires Shape(nodes, levels, maxHeight) && 0 < x < |nodes| && i < MAX_HEIGHT && i < |nodes[x].next|
             && x !in levels[i]
    ensures Shape(WithLink(nodes, x, i, to), levels, maxHeight)
            && Grows(nodes, levels, WithLink(nodes, x, i, to), levels)
  {
    hide Within;
    var nodes' := WithLink(nodes, x, i, to);
    forall l | 0 <= l < MAX_HEIGHT ensures Linked(nodes', levels, l) && Increasing(nodes', levels[l]) {
      assert Linked(nodes, levels, l) && Increasing(nodes, levels[l]);
      forall k | 0 <= k < |Path(levels, l)| ensures LinkAt(nodes', Path(levels, l), l, k) {
        assert LinkAt(nodes, Path(levels, l), l, k);
        assert Path(levels, l)[k] == x ==> l != i;
      }
    }
  }

  function Spliced(list: seq<nat>, p: nat, x: nat): seq<nat>
    requires p <= |list|
  {
    list[..p] + [x] + list[p..]
  }

  ghost predicate Distinct(nodes: seq<Node>, list: seq<nat>, key: Key) {
    forall k :: 0 <= k < |list| ==> list[k] < |nodes| && nodes[list[k]].key != key
  }

  lemma SplicedAt(list: seq<nat>, p: nat, x: nat)
    requires p <= |list|
    ensures |Spliced(list, p, x)| == |list| + 1
    ensures forall k :: 0 <= k <= |list| ==>
            Spliced(list, p, x)[k] == (if k < p then list[k] else if k == p then x else list[k - 1])
  {}

  lemma SplicedMembers(list: seq<nat>, p: nat, x: nat)
    requires p <= |list|
    ensures forall y :: y in Spliced(list, p, x) <==> y in list || y == x
  {
    assert list == list[..p] + list[p..];
  }

  lemma SplicedIncreasing(nodes: seq<Node>, nodes': seq<Node>, list: seq<nat>, p: nat, x: nat)
    requires Increasing(nodes, list) && 0 < x < |nodes| && p <= |list| && Place(nodes, list, nodes[x].key, p)
             && Distinct(nodes, list, nodes[x].key)
    requires |nodes'| == |nodes| && forall y :: 0 <= y < |nodes| ==> nodes'[y].key == nodes[y].key
    ensures Increasing(nodes', Spliced(list, p, x))
  {
    var r := Spliced(list, p, x);
    SplicedAt(list, p, x);
    forall k, l | 0 <= k < l < |r|
      ensures 0 < r[k] < |nodes| && 0 < r[l] < |nodes| && nodes'[r[k]].key < nodes'[r[l]].key {
      var k0, l0 := if k < p then k else k - 1, if l < p then l else l - 1;
      assert k != p ==> r[k] == list[k0];
      assert l != p ==> r[l] == list[l0];
    }
  }

  lemma SplicedLinked(nodes: seq<Node>, levels: seq<seq<nat>>, i: nat, p: nat, x: nat)
    requires i < |levels| && Linked(nodes, levels, i) && p <= |levels[i]| && x < |nodes| && i < |nodes[x].next|
    requires var prev := Path(levels, i)[p];
             prev < |nodes| && i < |nodes[prev].next| && nodes[x].next[i] == nodes[prev].next[i]
    requires x !in Path(levels, i) && forall k, l :: 0 <= k < l < |Path(levels, i)| ==>
             Path(levels, i)[k] != Path(levels, i)[l]
    ensures Linked(WithLink(nodes, Path(levels, i)[p], i, Some(x)), levels[i := Spliced(levels[i], p, x)], i)
  {
    var path, levels' := Path(levels, i), levels[i := Spliced(levels[i], p, x)];
    var nodes', path' := WithLink(nodes, path[p], i, Some(x)), Path(levels', i);
    forall k | 0 <= k < |path'| ensures LinkAt(nodes', path', i, k) {
      assert path'[k] == if k <= p then path[k] else if k == p + 1 then x else path[k - 1];
      assert k + 1 < |path'| ==> path'[k + 1] == if k + 1 <= p then path[k + 1] else if k == p then x else path[k];
      assert LinkAt(nodes, path, i, p);
      if k < p { assert LinkAt(nodes, path, i, k); }
      if k > p + 1 { assert LinkAt(nodes, path, i, k - 1); }
    }
  }

  lemma PathDistinct(nodes: seq<Node>, levels: seq<seq<nat>>, l: nat)
    requires l < |levels| && Increasing(nodes, levels[l])
    ensures forall j, k :: 0 <= j < k < |Path(levels, l)| ==> Path(levels, l)[j] != Path(levels, l)[k]
  {
    forall j, k | 0 <= j < k < |Path(levels, l)| ensures Path(levels, l)[j] != Path(levels, l)[k] {
      assert Path(levels, l)[k] == levels[l][k - 1];
      if j > 0 { assert Path(levels, l)[j] == levels[l][j - 1]; }
    }
  }

  /** The store that makes a node visible on a level. */
  lemma PublishKeeps(nodes: seq<Node>, levels: seq<seq<nat>>, maxHeight: nat, x: nat, i: nat, p: nat)
    requires Shape(nodes, levels, maxHeight) && 0 < x < |nodes| && i < maxHeight && i < |nodes[x].next|
    requires (i > 0 ==> x in levels[i - 1]) && x !in levels[i]
    requires p <= |levels[i]| && Place(nodes, levels[i], nodes[x].key, p) && Distinct(nodes, levels[i], nodes[x].key)
    requires var prev := Path(levels, i)[p];
             prev < |nodes| && i < |nodes[prev].next| && nodes[x].next[i] == nodes[prev].next[i]
    ensures var nodes', levels' := WithLink(nodes, Path(levels, i)[p], i, Some(x)),
            levels[i := Spliced(levels[i], p, x)];
            Shape(nodes', levels', maxHeight) && Grows(nodes, levels, nodes', levels')
  {
    hide Linked, Increasing, Place, Distinct, Spliced;
    var nodes', levels' := WithLink(nodes, Path(levels, i)[p], i, Some(x)), levels[i := Spliced(levels[i], p, x)];
    PathDistinct(nodes, levels, i);
    SplicedIncreasing(nodes, nodes', levels[i], p, x);
    SplicedMembers(levels[i], p, x);
    SplicedLinked(nodes, levels, i, p, x);
    forall l | 0 <= l < MAX_HEIGHT ensures Linked(nodes', levels', l) && Increasing(nodes', levels'[l]) {
      if l != i {
        OtherLevel(nodes, levels, Path(levels, i)[p], i, Some(x), l);
        SameLinked(nodes', levels, levels', l);
      }
    }
    forall l | 0 < l < MAX_HEIGHT ensures Within(levels', l) {
      assert Within(levels, l);
    }
  }

  lemma OtherLevel(nodes: seq<Node>, levels: seq<seq<nat>>, y: nat, i: nat, to: Option<nat>, l: nat)
    requires l < |levels| && Linked(nodes, levels, l) && Increasing(nodes, levels[l]) && l != i && y < |nodes|
             && i < |nodes[y].next|
    ensures Linked(WithLink(nodes, y, i, to), levels, l) && Increasing(WithLink(nodes, y, i, to), levels[l])
  {
    forall k | 0 <= k < |Path(levels, l)| ensures LinkAt(WithLink(nodes, y, i, to), Path(levels, l), l, k) {
      assert LinkAt(nodes, Path(levels, l), l, k);
    }
  }

  lemma SameLinked(nodes: seq<Node>, levels: seq<seq<nat>>, levels': seq<seq<nat>>, l: nat)
    requires l < |levels| == |levels'| && levels'[l] == levels[l] && Linked(nodes, levels, l)
    ensures Linked(nodes, levels', l)
  {
    assert Path(levels', l) == Path(levels, l);
  }

  lemma NewNodeKeeps(nodes: seq<Node>, levels: seq<seq<nat>>, maxHeight: nat, n: Node)
    requires Shape(nodes, levels, maxHeight)
    ensures Shape(nodes + [n], levels, maxHeight) && Grows(nodes, levels, nodes + [n], levels)
    ensures forall l :: 0 <= l < MAX_HEIGHT ==> |nodes| !in levels[l]
  {
    hide Within;
    forall l | 0 <= l < MAX_HEIGHT
      ensures Linked(nodes + [n], levels, l) && Increasing(nodes + [n], levels[l]) && |nodes| !in levels[l] {
      assert Linked(nodes, levels, l) && Increasing(nodes, levels[l]);
      forall k | 0 <= k < |Path(levels, l)| ensures LinkAt(nodes + [n], Path(levels, l), l, k) {
        assert LinkAt(nodes, Path(levels, l), l, k);
      }
    }
  }

  /** Node `x` with this key belongs on level `l` right after `prev`, at place `p`. */
  ghost predicate Ready(nodes: seq<Node>, levels: seq<seq<nat>>, l: nat, x: nat, key: Key, prev: nat, p: nat) {
    && l < |levels| && p <= |levels[l]| && prev == Path(levels, l)[p] && x !in levels[l]
    && Place(nodes, levels[l], key, p) && Distinct(nodes, levels[l], key)
  }

  lemma ReadyStays(nodes: seq<Node>, levels: seq<seq<nat>>, nodes': seq<Node>, levels': seq<seq<nat>>, l: nat, x: nat,
                   key: Key, prev: nat, p: nat)
    requires Ready(nodes, levels, l, x, key, prev, p) && l < |levels'| && levels'[l] == levels[l]
    requires |nodes| <= |nodes'| && forall y :: 0 <= y < |nodes| ==> nodes'[y].key == nodes[y].key
    ensures Ready(nodes', levels', l, x, key, prev, p)
  {}

  /** The node before the place has a pointer on that level, and is not the new node. */
  lemma ReadyPrev(nodes: seq<Node>, levels: seq<seq<nat>>, maxHeight: nat, l: nat, x: nat, key: Key, prev: nat, p: nat)
    requires Shape(nodes, levels, maxHeight) && Ready(nodes, levels, l, x, key, prev, p) && x > 0
    ensures |levels| == MAX_HEIGHT && prev < |nodes| && l < |nodes[prev].next| && prev != x
    ensures nodes[prev].next[l] == Successor(levels[l], p)
  {
    assert Linked(nodes, levels, l) && LinkAt(nodes, Path(levels, l), l, p);
  }

  ghost predicate Present(nodes: seq<Node>, list: seq<nat>, key: Key) {
    exists k :: 0 <= k < |list| && list[k] < |nodes| && nodes[list[k]].key == key
  }

  lemma PlaceTells(nodes: seq<Node>, levels: seq<seq<nat>>, maxHeight: nat, key: Key, p: nat)
    requires Shape(nodes, levels, maxHeight) && Place(nodes, levels[0], key, p)
    ensures Present(nodes, levels[0], key) <==> p < |levels[0]| && nodes[levels[0][p]].key == key
  {
    assert Increasing(nodes, levels[0]);
  }

  class SkipList {
    var nodes: seq<Node>
    var maxHeight: nat
    ghost var levels: seq<seq<nat>>

    ghost predicate Valid()
      reads this
    {
      Shape(nodes, levels, maxHeight)
    }

    /** The list as a scene without a reader. */
    ghost function Here(): Scene
      reads this
    {
      Scene(nodes, levels, maxHeight, Done(None))
    }

    constructor ()
      ensures Valid() && levels[0] == [] && |nodes| == 1
    {
      nodes, maxHeight := [Node(0.0, NoLinks(MAX_HEIGHT))], 1;
      levels := NoLevels(MAX_HEIGHT);
    }

    /** The first node at or after the key, and the last node before it on every level. */
    method FindGreaterOrEqual(key: Key) returns (found: Option<nat>, prev: seq<nat>, ghost places: seq<nat>)
      requires Valid()
      ensures |prev| == |places| == MAX_HEIGHT == |levels|
      ensures forall l :: 0 <= l < MAX_HEIGHT ==> places[l] <= |levels[l]|
      ensures forall l :: 0 <= l < MAX_HEIGHT ==>
              Place(nodes, levels[l], key, places[l]) && prev[l] == Path(levels, l)[places[l]]
      ensures found == if places[0] < |levels[0]| then Some(levels[0][places[0]]) else None
      ensures forall y :: y in levels[0] && y < |nodes| && nodes[y].key >= key ==> found.Some?
      ensures found.Some? ==> found.value in levels[0] && found.value < |nodes| && nodes[found.value].key >= key
    {
      hide Shape, Place, Searching;
      ShapeParts(nodes, levels, maxHeight, key);
      var x: nat, level: nat := 0, maxHeight - 1;
      prev, places := Heads(MAX_HEIGHT), Heads(MAX_HEIGHT);
      ghost var k: nat := 0;
      while true
        invariant level < maxHeight && Searching(nodes, levels, x, level, key)
                  && |prev| == |places| == MAX_HEIGHT == |levels|
        invariant k <= |levels[level]| && x == Path(levels, level)[k]
        invariant forall l :: level < l < MAX_HEIGHT ==> places[l] <= |levels[l]|
        invariant forall l :: level < l < MAX_HEIGHT ==>
                  Place(nodes, levels[l], key, places[l]) && prev[l] == Path(levels, l)[places[l]]
        decreases level, |levels[level]| - k
      {
        SearchStep(nodes, levels, maxHeight, x, level, key, k);
        SearchBound(nodes, levels, x, level, key);
        var next := nodes[x].next[level];
        if next.Some? && nodes[next.value].key < key {
          x := next.value;
          k := k + 1;
        } else {
          prev, places := prev[level := x], places[level := k];
          if level == 0 {
            PlaceFound(nodes, levels[0], key, k);
            return next, prev, places;
          }
          level := level - 1;
          k := PositionOf(nodes, levels, x, level, key);
        }
      }
    }

    /** The last node before the key; the head when there is none. */
    method FindLessThan(key: Key) returns (x: nat, ghost p: nat)
      requires Valid()
      ensures |levels| == MAX_HEIGHT && p <= |levels[0]| && x == Path(levels, 0)[p] && Place(nodes, levels[0], key, p)
      ensures x == 0 || (x in levels[0] && x < |nodes| && nodes[x].key < key)
      ensures x == 0 ==> forall y :: y in levels[0] && y < |nodes| ==> nodes[y].key >= key
    {
      hide Shape, Place, Searching;
      ShapeParts(nodes, levels, maxHeight, key);
      var level: nat := maxHeight - 1;
      x, p := 0, 0;
      while true
        invariant level < maxHeight && Searching(nodes, levels, x, level, key)
        invariant p <= |levels[level]| && x == Path(levels, level)[p]
        decreases level, |levels[level]| - p
      {
        SearchStep(nodes, levels, maxHeight, x, level, key, p);
        SearchBound(nodes, levels, x, level, key);
        var next := nodes[x].next[level];
        if next.None? || nodes[next.value].key >= key {
          if level == 0 {
            PlaceBefore(nodes, levels, maxHeight, key, p);
            return;
          }
          level := level - 1;
          p := PositionOf(nodes, levels, x, level, key);
        } else {
          x := next.value;
          p := p + 1;
        }
      }
    }

    /** The last node; the head when there is none. */
    method FindLast() returns (x: nat)
      requires Valid()
      ensures |levels| == MAX_HEIGHT && x == Path(levels, 0)[|levels[0]|]
    {
      hide Shape;
      ShapeParts(nodes, levels, maxHeight, 0.0);
      var level: nat := maxHeight - 1;
      x := 0;
      ghost var p: nat := 0;
      while true
        invariant level < maxHeight && p <= |levels[level]| && x == Path(levels, level)[p]
        decreases level, |levels[level]| - p
      {
        LastStep(nodes, levels, maxHeight, x, level, p);
        var next := nodes[x].next[level];
        if next.None? {
          if level == 0 { return; }
          level := level - 1;
          p :| 0 <= p < |Path(levels, level)| && Path(levels, level)[p] == x;
        } else {
          x := next.value;
          p := p + 1;
        }
      }
    }

    method Contains(key: Key) returns (r: bool)
      requires Valid()
      ensures |levels| == MAX_HEIGHT && (r <==> Present(nodes, levels[0], key))
    {
      hide Shape;
      var found, prev, places := FindGreaterOrEqual(key);
      PlaceTells(nodes, levels, maxHeight, key, places[0]);
      r := found.Some? && nodes[found.value].key == key;
    }

    /** The store of the new height; searches that see it find nothing on the new levels yet. */
    method RaiseHeight(height: nat)
      requires Valid() && maxHeight <= height <= MAX_HEIGHT
      modifies `maxHeight
      ensures Valid() && maxHeight == height
      ensures OneStore(old(Here()), RaiseTo(height), Here()) && WriterStores(old(Here()), Here())
    {
      maxHeight := height;
    }

    /** A node that no pointer reaches yet. */
    method NewNode(key: Key, height: nat) returns (x: nat)
      requires Valid() && height <= MAX_HEIGHT
      modifies `nodes
      ensures Valid() && x == |old(nodes)| && nodes == old(nodes) + [Node(key, NoLinks(height))]
      ensures OneStore(old(Here()), NewNodeOf(Node(key, NoLinks(height))), Here()) && WriterStores(old(Here()), Here())
      ensures Grows(old(nodes), levels, nodes, levels) && |levels| == MAX_HEIGHT && forall l :: 0 <= l < MAX_HEIGHT ==>
              x !in levels[l]
    {
      NewNodeKeeps(nodes, levels, maxHeight, Node(key, NoLinks(height)));
      hide Shape;
      x := |nodes|;
      nodes := nodes + [Node(key, NoLinks(height))];
    }

    /** The first of the two stores that link a node on a level. */
    method SetOwnNext(x: nat, i: nat, to: Option<nat>)
      requires Valid() && 0 < x < |nodes| && i < |nodes[x].next| && |levels| == MAX_HEIGHT && i < MAX_HEIGHT
               && x !in levels[i]
      modifies `nodes
      ensures Valid() && nodes == WithLink(old(nodes), x, i, to) && Grows(old(nodes), levels, nodes, levels)
      ensures OneStore(old(Here()), SetNext(x, i, to), Here()) && WriterStores(old(Here()), Here())
    {
      PrepareKeeps(nodes, levels, maxHeight, x, i, to);
      hide Shape;
      nodes := WithLink(nodes, x, i, to);
    }

    /** The second one, which makes the node visible there. */
    method Publish(prev: nat, x: nat, i: nat, ghost p: nat)
      requires Valid() && 0 < x < |nodes| && i < maxHeight && i < |nodes[x].next| && |levels| == MAX_HEIGHT
               && maxHeight <= MAX_HEIGHT
      requires (i > 0 ==> x in levels[i - 1]) && x !in levels[i]
      requires p <= |levels[i]| && Place(nodes, levels[i], nodes[x].key, p) && Distinct(nodes, levels[i], nodes[x].key)
      requires prev == Path(levels, i)[p] && prev < |nodes| && i < |nodes[prev].next|
               && nodes[x].next[i] == nodes[prev].next[i]
      modifies `nodes, `levels
      ensures Valid() && nodes == WithLink(old(nodes), prev, i, Some(x))
              && levels == old(levels)[i := Spliced(old(levels)[i], p, x)]
      ensures Grows(old(nodes), old(levels), nodes, levels)
      ensures OneStore(old(Here()), SetNext(prev, i, Some(x)), Here()) && WriterStores(old(Here()), Here())
    {
      PublishKeeps(nodes, levels, maxHeight, x, i, p);
      hide Shape;
      nodes := WithLink(nodes, prev, i, Some(x));
      levels := levels[i := Spliced(levels[i], p, x)];
    }

    /** The two stores that link node `x` on level `i` after `prev`. */
    method LinkOne(prev: nat, x: nat, i: nat, ghost p: nat) returns (ghost between: Scene)
      requires Valid() && 0 < x < |nodes| && i < maxHeight <= MAX_HEIGHT && i < |nodes[x].next|
      requires Ready(nodes, levels, i, x, nodes[x].key, prev, p) && (i > 0 ==> x in levels[i - 1])
      modifies `nodes, `levels
      ensures Valid() && levels == old(levels)[i := Spliced(old(levels)[i], p, x)] && x in levels[i]
      ensures Grows(old(nodes), old(levels), nodes, levels) && |nodes| == |old(nodes)|
              && |nodes[x].next| == |old(nodes)[x].next|
      ensures OneStore(old(Here()), SetNext(x, i, Successor(old(levels)[i], p)), between)
              && WriterStores(old(Here()), between)
      ensures OneStore(between, SetNext(prev, i, Some(x)), Here()) && WriterStores(between, Here())
    {
      hide Shape, Linked, Place, Distinct;
      ReadyPrev(nodes, levels, maxHeight, i, x, nodes[x].key, prev, p);
      SplicedMembers(levels[i], p, x);
      ghost var before := nodes;
      SetOwnNext(x, i, nodes[prev].next[i]);
      ReadyStays(before, levels, nodes, levels, i, x, nodes[x].key, prev, p);
      between := Here();
      Publish(prev, x, i, p);
    }

    /** Links a new node on its levels from the bottom up, by single stores between which a reader
        may run anywhere. */
    method Insert(key: Key, height: nat) returns (x: nat, ghost places: seq<nat>, ghost trace: seq<Scene>)
      requires Valid() && 1 <= height <= MAX_HEIGHT
      requires |levels| == MAX_HEIGHT && Distinct(nodes, levels[0], key)
      modifies this
      ensures Valid() && |levels| == MAX_HEIGHT && x == |old(nodes)| < |nodes| && nodes[x].key == key
      ensures PlacesIn(old(levels), places)
      ensures forall l :: 0 <= l < MAX_HEIGHT ==>
              levels[l] == if l < height then Spliced(old(levels)[l], places[l], x) else old(levels)[l]
      ensures Grows(old(nodes), old(levels), nodes, levels)
      ensures Stores(trace, InsertStores(old(Here()), places, key, height)) && trace[0] == old(Here())
              && trace[|trace| - 1] == Here()
      ensures ServesReaders(trace)
    {
      hide Shape, Place, Spliced, Distinct, Ready, WriterStores, OneStore, Stores, Leads, ServesReaders, Successor,
           LinkStores, LinkedUpTo, ReadyFrom;
      var found, prev;
      found, prev, places := FindGreaterOrEqual(key);
      HeightBounds(nodes, levels, maxHeight);
      ghost var start := Here();
      ghost var stores: seq<Store> := [];
      trace := [start];
      NoStore(start);
      if height > maxHeight {
        RaiseHeight(height);
        LeadsOn(start, trace, stores, start, RaiseTo(height), Here());
        trace, stores := trace + [Here()], stores + [RaiseTo(height)];
      }
      DistinctLevels(nodes, levels, maxHeight, key);
      ghost var before, raised := nodes, Here();
      x := NewNode(key, height);
      LeadsOn(start, trace, stores, raised, NewNodeOf(Node(key, NoLinks(height))), Here());
      trace, stores := trace + [Here()], stores + [NewNodeOf(Node(key, NoLinks(height)))];
      AllReady(before, nodes, levels, x, key, prev, places);
      ghost var first := stores;
      NoLinkYet(start.levels, places, x);
      LinkingStarts(nodes, levels, x, key, prev, places);
      var i := 0;
      while i < height
        invariant 0 <= i <= height <= maxHeight <= MAX_HEIGHT && Valid() && |levels| == MAX_HEIGHT
        invariant 0 < x == |before| < |nodes| && nodes[x].key == key && |nodes[x].next| == height
        invariant LinkedUpTo(start.levels, levels, places, x, i) && ReadyFrom(nodes, levels, i, x, key, prev, places)
        invariant i > 0 ==> x in levels[i - 1]
        invariant Grows(before, old(levels), nodes, levels)
        invariant Leads(start, trace, stores, Here()) && stores == first + LinkStores(start.levels, places, x, i)
      {
        ReadyAt(start.levels, nodes, levels, i, x, key, prev, places);
        ghost var now, own, link := Here(), SetNext(x, i, Successor(levels[i], places[i])),
          SetNext(prev[i], i, Some(x));
        ghost var between := LinkOne(prev[i], x, i, places[i]);
        LeadsOn(start, trace, stores, now, own, between);
        LeadsOn(start, trace + [between], stores + [own], between, link, Here());
        MoreLinks(start.levels, places, x, i);
        assert stores + [own] + [link] == first + LinkStores(start.levels, places, x, i + 1);
        trace, stores := trace + [between] + [Here()], stores + [own] + [link];
        OneLevelLinked(start.levels, now.levels, places, x, i);
        StillReady(now.nodes, now.levels, nodes, levels, i, x, key, prev, places);
        i := i + 1;
      }
      LinkingEnds(start.levels, levels, places, x, height);
      LeadsParts(start, trace, stores, Here());
      assert stores == InsertStores(start, places, key, height);
      StoresServeReaders(trace, stores);
    }
  }

  /** The new node is on the levels below `i`. */
  ghost predicate LinkedUpTo(before: seq<seq<nat>>, levels: seq<seq<nat>>, places: seq<nat>, x: nat, i: nat)
    requires PlacesIn(before, places)
  {
    |levels| == MAX_HEIGHT && forall l :: 0 <= l < MAX_HEIGHT ==>
      levels[l] == if l < i then Spliced(before[l], places[l], x) else before[l]
  }

  ghost predicate ReadyFrom(nodes: seq<Node>, levels: seq<seq<nat>>, i: nat, x: nat, key: Key, prev: seq<nat>,
                            places: seq<nat>) {
    |prev| == |places| == MAX_HEIGHT && forall l :: i <= l < MAX_HEIGHT ==>
      Ready(nodes, levels, l, x, key, prev[l], places[l])
  }

  lemma LinkingStarts(nodes: seq<Node>, levels: seq<seq<nat>>, x: nat, key: Key, prev: seq<nat>, places: seq<nat>)
    requires PlacesIn(levels, places) && |prev| == MAX_HEIGHT
    requires forall l :: 0 <= l < MAX_HEIGHT ==> Ready(nodes, levels, l, x, key, prev[l], places[l])
    ensures LinkedUpTo(levels, levels, places, x, 0) && ReadyFrom(nodes, levels, 0, x, key, prev, places)
  {
    hide Ready;
  }

  lemma LinkingEnds(before: seq<seq<nat>>, levels: seq<seq<nat>>, places: seq<nat>, x: nat, height: nat)
    requires PlacesIn(before, places) && LinkedUpTo(before, levels, places, x, height)
    ensures |levels| == MAX_HEIGHT
    ensures forall l :: 0 <= l < MAX_HEIGHT ==>
            levels[l] == if l < height then Spliced(before[l], places[l], x) else before[l]
  {
    hide Spliced;
  }

  lemma ReadyAt(before: seq<seq<nat>>, nodes: seq<Node>, levels: seq<seq<nat>>, i: nat, x: nat, key: Key,
                prev: seq<nat>, places: seq<nat>)
    requires PlacesIn(before, places) && LinkedUpTo(before, levels, places, x, i)
             && ReadyFrom(nodes, levels, i, x, key, prev, places)
    requires i < MAX_HEIGHT
    ensures Ready(nodes, levels, i, x, key, prev[i], places[i]) && levels[i] == before[i]
            && prev[i] == Path(before, i)[places[i]]
  {
    hide Place, Distinct;
  }

  lemma OneLevelLinked(before: seq<seq<nat>>, levels: seq<seq<nat>>, places: seq<nat>, x: nat, i: nat)
    requires PlacesIn(before, places) && LinkedUpTo(before, levels, places, x, i) && i < MAX_HEIGHT
    ensures LinkedUpTo(before, levels[i := Spliced(levels[i], places[i], x)], places, x, i + 1)
  {
    hide Spliced;
  }

  lemma StillReady(nodes: seq<Node>, levels: seq<seq<nat>>, nodes': seq<Node>, levels': seq<seq<nat>>, i: nat, x: nat,
                   key: Key,
                   prev: seq<nat>, places: seq<nat>)
    requires ReadyFrom(nodes, levels, i, x, key, prev, places) && |levels| == |levels'| == MAX_HEIGHT
    requires forall l :: i < l < MAX_HEIGHT ==> levels'[l] == levels[l]
    requires |nodes| <= |nodes'| && forall y :: 0 <= y < |nodes| ==> nodes'[y].key == nodes[y].key
    ensures ReadyFrom(nodes', levels', i + 1, x, key, prev, places)
  {
    hide Ready;
    forall l | i < l < MAX_HEIGHT ensures Ready(nodes', levels', l, x, key, prev[l], places[l]) {
      ReadyStays(nodes, levels, nodes', levels', l, x, key, prev[l], places[l]);
    }
  }

  lemma NoLinkYet(levels: seq<seq<nat>>, places: seq<nat>, x: nat)
    requires PlacesIn(levels, places)
    ensures LinkStores(levels, places, x, 0) == []
  {}

  lemma MoreLinks(levels: seq<seq<nat>>, places: seq<nat>, x: nat, i: nat)
    requires PlacesIn(levels, places) && i < MAX_HEIGHT
    ensures LinkStores(levels, places, x, i + 1)
         == LinkStores(levels, places, x, i) + [SetNext(x, i, Successor(levels[i], places[i])),
           SetNext(Path(levels, i)[places[i]], i, Some(x))]
  {}

  lemma LeadsParts(start: Scene, trace: seq<Scene>, stores: seq<Store>, now: Scene)
    requires Leads(start, trace, stores, now)
    ensures Stores(trace, stores) && trace != [] && trace[0] == start && trace[|trace| - 1] == now
  {}

  /** A position among the nodes of level 0. */
  class SkipListIterator {
    const list: SkipList
    var node: Option<nat>

    constructor (list: SkipList)
      ensures this.list == list && node == None
    {
      this.list, node := list, None;
    }

    /** The iterator stands on entry `i`; one past the last entry it is not valid. */
    ghost predicate At(i: nat)
      reads this, list
    {
      && list.Valid() && i <= |list.levels[0]|
      && node == if i < |list.levels[0]| then Some(list.levels[0][i]) else None
    }

    method Next(ghost i: nat)
      requires At(i) && i < |list.levels[0]|
      modifies this
      ensures At(i + 1)
    {
      LastStep(list.nodes, list.levels, list.maxHeight, node.value, 0, i + 1);
      hide SkipList.Valid;
      node := list.nodes[node.value].next[0];
    }

    /** There are no back pointers: the predecessor is searched for by key. */
    method Prev(ghost i: nat)
      requires At(i) && i < |list.levels[0]|
      modifies this
      ensures if i > 0 then At(i - 1) else At(|list.levels[0]|)
    {
      NodeFacts(list.nodes, list.levels, list.maxHeight, i);
      var x, p := list.FindLessThan(list.nodes[node.value].key);
      PlaceOf(list.nodes, list.levels, list.maxHeight, i, p);
      node := if x == 0 then None else Some(x);
    }

    method Seek(target: Key) returns (ghost i: nat)
      requires list.Valid()
      modifies this
      ensures At(i) && Place(list.nodes, list.levels[0], target, i)
    {
      var found, prev, places := list.FindGreaterOrEqual(target);
      node, i := found, places[0];
    }

    method SeekToFirst()
      requires list.Valid()
      modifies this
      ensures At(0)
    {
      LastStep(list.nodes, list.levels, list.maxHeight, 0, 0, 0);
      node := list.nodes[0].next[0];
    }

    method SeekToLast()
      requires list.Valid()
      modifies this
      ensures At(if list.levels[0] == [] then 0 else |list.levels[0]| - 1)
    {
      var x := list.FindLast();
      if list.levels[0] != [] { NodeFacts(list.nodes, list.levels, list.maxHeight, |list.levels[0]| - 1); }
      node := if x == 0 then None else Some(x);
    }
  }

  lemma NodeFacts(nodes: seq<Node>, levels: seq<seq<nat>>, maxHeight: nat, i: nat)
    requires Shape(nodes, levels, maxHeight) && i < |levels[0]|
    ensures 0 < levels[0][i] < |nodes|
    ensures forall j :: 0 <= j < |levels[0]| ==> 0 < levels[0][j] < |nodes|
  {
    assert Increasing(nodes, levels[0]);
  }

  /** A node's own key belongs where the node is. */
  lemma PlaceOf(nodes: seq<Node>, levels: seq<seq<nat>>, maxHeight: nat, i: nat, p: nat)
    requires Shape(nodes, levels, maxHeight) && i < |levels[0]| && levels[0][i] < |nodes|
    requires Place(nodes, levels[0], nodes[levels[0][i]].key, p)
    ensures p == i && forall j :: 0 <= j < |levels[0]| ==> 0 < levels[0][j] < |nodes|
  {
    var list := levels[0];
    assert Increasing(nodes, list);
    if p < |list| { assert nodes[list[p]].key >= nodes[list[i]].key; }
  }

  lemma HeightBounds(nodes: seq<Node>, levels: seq<seq<nat>>, maxHeight: nat)
    requires Shape(nodes, levels, maxHeight)
    ensures |levels| == MAX_HEIGHT && 1 <= maxHeight <= MAX_HEIGHT && nodes != []
  {}

  lemma PlaceFound(nodes: seq<Node>, list: seq<nat>, key: Key, p: nat)
    requires Place(nodes, list, key, p)
    ensures forall y :: y in list && y < |nodes| && nodes[y].key >= key ==> p < |list|
    ensures p < |list| ==> list[p] < |nodes| && nodes[list[p]].key >= key
  {}

  lemma PlaceBefore(nodes: seq<Node>, levels: seq<seq<nat>>, maxHeight: nat, key: Key, p: nat)
    requires Shape(nodes, levels, maxHeight) && Place(nodes, levels[0], key, p)
    ensures var x := Path(levels, 0)[p];
            && (x == 0 || (x in levels[0] && x < |nodes| && nodes[x].key < key))
            && (x == 0 ==> forall y :: y in levels[0] && y < |nodes| ==> nodes[y].key >= key)
  {
    assert Increasing(nodes, levels[0]);
    assert p > 0 ==> Path(levels, 0)[p] == levels[0][p - 1];
  }

  lemma SearchBound(nodes: seq<Node>, levels: seq<seq<nat>>, x: nat, l: nat, key: Key)
    requires Searching(nodes, levels, x, l, key)
    ensures x < |nodes|
  {}

  function NoLinks(n: nat): (r: seq<Option<nat>>)
    ensures |r| == n && forall i :: 0 <= i < n ==> r[i] == None
  {
    if n == 0 then [] else NoLinks(n - 1) + [None]
  }

  function NoLevels(n: nat): (r: seq<seq<nat>>)
    ensures |r| == n && forall i :: 0 <= i < n ==> r[i] == []
  {
    if n == 0 then [] else NoLevels(n - 1) + [[]]
  }

  function Heads(n: nat): (r: seq<nat>)
    ensures |r| == n && forall i :: 0 <= i < n ==> r[i] == 0
  {
    if n == 0 then [] else Heads(n - 1) + [0]
  }

  lemma ShapeParts(nodes: seq<Node>, levels: seq<seq<nat>>, maxHeight: nat, key: Key)
    requires Shape(nodes, levels, maxHeight)
    ensures |levels| == MAX_HEIGHT && 1 <= maxHeight <= MAX_HEIGHT && nodes != []
    ensures forall l :: 0 <= l < MAX_HEIGHT ==> Searching(nodes, levels, 0, l, key)
    ensures forall l :: maxHeight <= l < MAX_HEIGHT ==> levels[l] == [] && Place(nodes, levels[l], key, 0)
  {}

  lemma LastStep(nodes: seq<Node>, levels: seq<seq<nat>>, maxHeight: nat, x: nat, l: nat, p: nat)
    requires Shape(nodes, levels, maxHeight) && l < maxHeight && p <= |levels[l]| && x == Path(levels, l)[p]
    ensures x < |nodes| && l < |nodes[x].next|
            && nodes[x].next[l] == if p < |levels[l]| then Some(levels[l][p]) else None
    ensures l > 0 ==> x in Path(levels, l - 1)
  {
    assert Linked(nodes, levels, l) && LinkAt(nodes, Path(levels, l), l, p);
    if l > 0 {
      assert Within(levels, l);
      if p > 0 {
        assert x == levels[l][p - 1] && x in levels[l];
        var k :| 0 <= k < |levels[l - 1]| && levels[l - 1][k] == x;
        assert Path(levels, l - 1)[k + 1] == x;
      } else {
        assert Path(levels, l - 1)[0] == x;
      }
    }
  }

  /** A key that is on no node of level 0 is on no node at all. */
  lemma DistinctLevels(nodes: seq<Node>, levels: seq<seq<nat>>, maxHeight: nat, key: Key)
    requires Shape(nodes, levels, maxHeight) && Distinct(nodes, levels[0], key)
    ensures forall l :: 0 <= l < MAX_HEIGHT ==> Distinct(nodes, levels[l], key)
  {
    forall l | 0 <= l < MAX_HEIGHT
      ensures Distinct(nodes, levels[l], key) { DistinctLevel(nodes, levels, maxHeight, key, l); }
  }

  lemma {:induction false} DistinctLevel(nodes: seq<Node>, levels: seq<seq<nat>>, maxHeight: nat, key: Key, l: nat)
    requires Shape(nodes, levels, maxHeight) && Distinct(nodes, levels[0], key) && l < MAX_HEIGHT
    ensures Distinct(nodes, levels[l], key)
  {
    if l > 0 {
      DistinctLevel(nodes, levels, maxHeight, key, l - 1);
      assert Within(levels, l);
      forall k | 0 <= k < |levels[l]| ensures levels[l][k] < |nodes| && nodes[levels[l][k]].key != key {
        var y := levels[l][k];
        assert y in levels[l];
        var j :| 0 <= j < |levels[l - 1]| && levels[l - 1][j] == y;
      }
    }
  }

  lemma AllReady(nodes: seq<Node>, nodes': seq<Node>, levels: seq<seq<nat>>, x: nat, key: Key, prev: seq<nat>,
                 places: seq<nat>)
    requires |levels| == |places| == |prev| == MAX_HEIGHT && |nodes| <= |nodes'| && forall y :: 0 <= y < |nodes| ==>
             nodes'[y].key == nodes[y].key
    requires forall l :: 0 <= l < MAX_HEIGHT ==> places[l] <= |levels[l]| && x !in levels[l]
    requires forall l :: 0 <= l < MAX_HEIGHT ==>
             Place(nodes, levels[l], key, places[l]) && prev[l] == Path(levels, l)[places[l]]
    requires forall l :: 0 <= l < MAX_HEIGHT ==> Distinct(nodes, levels[l], key)
    ensures forall l :: 0 <= l < MAX_HEIGHT ==> Ready(nodes', levels, l, x, key, prev[l], places[l])
  {}
}
