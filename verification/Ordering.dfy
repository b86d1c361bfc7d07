/**
 Kahn's algorithm as the planner runs it: the first queue comes out of a hash map, so its order is
 arbitrary, and a fallback appends the nodes the queue never reaches.
 */
module Ordering {
  import opened Prelude
  import opened Dag
  import opened Graph

  // ----- counting edges

  /** Targets of the edges that leave `x`, in edge order. */
  function Children(edges: seq<DagEdge>, x: string): seq<string> {
    if edges == [] then []
    else
      var e := edges[|edges| - 1];
      Children(edges[..|edges| - 1], x) + (if e.src == x then [e.dst] else [])
  }

  /** How many edges enter `x` from a node outside `done`. */
  ghost function CountIn(edges: seq<DagEdge>, x: string, done: set<string>): nat {
    if edges == [] then 0
    else
      var e := edges[|edges| - 1];
      CountIn(edges[..|edges| - 1], x, done) + (if e.dst == x && e.src !in done then 1 else 0)
  }

  /** Every edge into `x` leaves a node of `done`. */
  ghost predicate PredsIn(edges: seq<DagEdge>, x: string, done: set<string>) {
    forall e :: e in edges && e.dst == x ==> e.src in done
  }

  /** Each id of `ids` is preceded by all its predecessors. */
  ghost predicate Forward(edges: seq<DagEdge>, ids: seq<string>) {
    forall i :: 0 <= i < |ids| ==> PredsIn(edges, ids[i], Elems(ids[..i]))
  }

  lemma {:induction false} CountInZero(edges: seq<DagEdge>, x: string, done: set<string>)
    ensures CountIn(edges, x, done) == 0 <==> PredsIn(edges, x, done)
  {
    if edges == [] {
    } else {
      var init, e := edges[..|edges| - 1], edges[|edges| - 1];
      CountInZero(init, x, done);
      assert edges == init + [e];
    }
  }

  /** Finishing `id` takes from each counter exactly the edges that leave `id`. */
  lemma {:induction false} CountInFinish(edges: seq<DagEdge>, x: string, done: set<string>, id: string)
    requires id !in done
    ensures CountIn(edges, x, done) == CountIn(edges, x, done + {id}) + multiset(Children(edges, id))[x]
  {
    if edges == [] {
    } else {
      CountInFinish(edges[..|edges| - 1], x, done, id);
    }
  }

  lemma {:induction false} ChildrenAreTargets(edges: seq<DagEdge>, id: string, c: string)
    requires c in Children(edges, id)
    ensures DagEdge(id, c) in edges
  {
    var init, e := edges[..|edges| - 1], edges[|edges| - 1];
    assert edges == init + [e];
    if c in Children(init, id) {
      ChildrenAreTargets(init, id, c);
    } else {
      assert e.src == id && e.dst == c;
    }
  }

  // ----- nodes the queue cannot reach

  /** The ids the algorithm keeps a counter for: declared nodes and edge targets. */
  ghost function Keys(spec: DagSpecification): set<string> {
    Elems(Ids(spec.nodes)) + (set e | e in spec.edges :: e.dst)
  }

  /** A node on a cycle, or an edge source that is neither declared nor the target of an edge. */
  ghost predicate BadSource(spec: DagSpecification, s: string) {
    Reaches(spec.edges, s, s) || s !in Keys(spec)
  }

  ghost predicate BlockedBy(spec: DagSpecification, s: string, x: string) {
    BadSource(spec, s) && (s == x || Reaches(spec.edges, s, x))
  }

  /** `x` is reachable from a cycle, or from a source the algorithm keeps no counter for. */
  ghost predicate Blocked(spec: DagSpecification, x: string) {
    exists s :: BlockedBy(spec, s, x)
  }

  /** Declared blocked ids in declaration order, each once. */
  ghost function StuckIds(spec: DagSpecification, nodes: seq<DagNode>): seq<string> {
    if nodes == [] then []
    else
      var rest := StuckIds(spec, nodes[..|nodes| - 1]);
      var id := nodes[|nodes| - 1].id;
      if Blocked(spec, id) && id !in rest then rest + [id] else rest
  }

  /** On a forward list, a path into position `k` starts at a position before `k`. */
  lemma {:induction false} ForwardPath(edges: seq<DagEdge>, ids: seq<string>, p: seq<string>, k: nat) returns (j: nat)
    requires Forward(edges, ids) && IsPath(edges, p)
    requires k < |ids| && ids[k] == p[|p| - 1]
    ensures j <= k && ids[j] == p[0]
    ensures |p| >= 2 ==> j < k
    decreases |p|
  {
    if |p| == 1 {
      j := k;
    } else {
      assert Adjacent(edges, p, |p| - 2);
      var e := DagEdge(p[|p| - 2], p[|p| - 1]);
      assert PredsIn(edges, ids[k], Elems(ids[..k]));
      assert e.src in ids[..k];
      var m :| 0 <= m < k && ids[m] == e.src;
      PathPrefix(edges, p, |p| - 2);
      j := ForwardPath(edges, ids, p[..|p| - 1], m);
    }
  }

  /** A forward list over all edge targets leaves no room for a cycle. */
  lemma ForwardIsAcyclic(edges: seq<DagEdge>, ids: seq<string>)
    requires Forward(edges, ids) && NoDup(ids) && forall e :: e in edges ==> e.dst in ids
    ensures Acyclic(edges)
  {
    forall x | Reaches(edges, x, x) ensures false {
      var p :| PathFromTo(edges, p, x, x) && |p| >= 2;
      assert Adjacent(edges, p, |p| - 2);
      assert DagEdge(p[|p| - 2], x).dst in ids;
      var k :| 0 <= k < |ids| && ids[k] == x;
      var j := ForwardPath(edges, ids, p, k);
    }
  }

  lemma {:induction false} FinishedNotBlocked(spec: DagSpecification, ids: seq<string>, k: nat)
    requires Forward(spec.edges, ids) && NoDup(ids) && Elems(ids) <= Keys(spec)
    requires k < |ids|
    ensures !Blocked(spec, ids[k])
  {
    forall s | BlockedBy(spec, s, ids[k]) ensures false {
      var at := k;
      if s != ids[k] {
        var p :| PathFromTo(spec.edges, p, s, ids[k]) && |p| >= 2;
        at := ForwardPath(spec.edges, ids, p, k);
      }
      assert s in Elems(ids);
      var c :| PathFromTo(spec.edges, c, s, s) && |c| >= 2;
      var j := ForwardPath(spec.edges, ids, c, at);
    }
  }

  /** Walking back from an unfinished id ends in a cycle or outside the counted ids. */
  lemma {:induction false} WalkBack(spec: DagSpecification, done: set<string>, q: seq<string>)
    requires forall x :: x in Keys(spec) - done ==> !PredsIn(spec.edges, x, done)
    requires IsPath(spec.edges, q) && Elems(q) <= Keys(spec) - done
    ensures Blocked(spec, q[|q| - 1])
    decreases Keys(spec) - done - Elems(q)
  {
    var x, head := q[|q| - 1], q[0];
    assert head in Elems(q);
    var e :| e in spec.edges && e.dst == head && e.src !in done;
    assert e == DagEdge(e.src, head);
    PathCons(spec.edges, e.src, q);
    if e.src !in Keys(spec) {
      assert PathFromTo(spec.edges, [e.src] + q, e.src, x);
      assert BlockedBy(spec, e.src, x);
    } else if e.src in q {
      var i :| 0 <= i < |q| && q[i] == e.src;
      var loop := ([e.src] + q)[..i + 2];
      PathPrefix(spec.edges, [e.src] + q, i + 1);
      assert PathFromTo(spec.edges, loop, e.src, e.src);
      PathSuffix(spec.edges, q, i);
      assert i < |q| - 1 ==> PathFromTo(spec.edges, q[i..], e.src, x);
      assert BlockedBy(spec, e.src, x);
    } else {
      assert Elems([e.src] + q) == {e.src} + Elems(q);
      WalkBack(spec, done, [e.src] + q);
    }
  }

  /** The popped ids are exactly the counted ids that are not blocked. */
  lemma FinishedIffNotBlocked(spec: DagSpecification, ids: seq<string>, x: string)
    requires Forward(spec.edges, ids) && NoDup(ids) && Elems(ids) <= Keys(spec)
    requires forall y :: y in Keys(spec) - Elems(ids) ==> !PredsIn(spec.edges, y, Elems(ids))
    requires x in Keys(spec)
    ensures x in ids <==> !Blocked(spec, x)
  {
    if x in ids {
      var k :| 0 <= k < |ids| && ids[k] == x;
      FinishedNotBlocked(spec, ids, k);
    } else {
      assert Elems([x]) == {x};
      WalkBack(spec, Elems(ids), [x]);
    }
  }

  // ----- the algorithm

  /** The children whose counter reaches zero, in the order in which it does. */
  function Zeroed(before: map<string, nat>, children: seq<string>): seq<string> {
    if children == [] then []
    else
      var c := children[|children| - 1];
      Zeroed(before, children[..|children| - 1]) +
        (if c in before && before[c] == multiset(children)[c] then [c] else [])
  }

  /** Counters after releasing some children: `added` are the ids whose counter has reached zero. */
  ghost predicate Released(before: map<string, nat>, children: seq<string>, after: map<string, nat>,
                           added: seq<string>) {
    && after.Keys == before.Keys
    && (forall x :: x in before ==> after[x] + multiset(children)[x] == before[x])
    && NoDup(added)
    && forall x :: x in added <==> x in before && before[x] > 0 && after[x] == 0
  }

  lemma ZeroedNext(before: map<string, nat>, children: seq<string>, c: string)
    ensures Zeroed(before, children + [c]) ==
            if c in before && before[c] == multiset(children)[c] + 1 then Zeroed(before, children) + [c]
            else Zeroed(before, children)
  {
    var more := children + [c];
    assert more[..|children|] == children && more[|children|] == c;
    assert multiset(more)[c] == multiset(children)[c] + 1;
  }

  lemma ReleasedStep(before: map<string, nat>, children: seq<string>, after: map<string, nat>, added: seq<string>,
                     c: string)
    requires Released(before, children, after, added) && c in after && after[c] > 0
    ensures var less := after[c := after[c] - 1];
            Released(before, children + [c], less, if less[c] == 0 then added + [c] else added)
  {
  }

  lemma StillPositive(before: map<string, nat>, children: seq<string>, j: nat, after: map<string, nat>,
                      added: seq<string>)
    requires j < |children| && children[j] in before && multiset(children)[children[j]] <= before[children[j]]
    requires Released(before, children[..j], after, added)
    ensures children[j] in after && after[children[j]] > 0
  {
    assert children == children[..j] + [children[j]] + children[j + 1..];
    assert multiset(children)[children[j]] >= multiset(children[..j])[children[j]] + 1;
  }

  /** Decrements the counter of one child and says whether it reached zero. */
  method ReleaseChild(counters: map<string, nat>, child: string, ghost before: map<string, nat>,
                      ghost done: seq<string>, ghost added: seq<string>)
    returns (counters': map<string, nat>, ready: bool)
    requires Released(before, done, counters, added) && child in counters && counters[child] > 0
    ensures Released(before, done + [child], counters', if ready then added + [child] else added)
    ensures ready <==> before[child] == multiset(done)[child] + 1
  {
    ReleasedStep(before, done, counters, added, child);
    var c := if counters[child] > 0 then counters[child] - 1 else 0;
    counters', ready := counters[child := c], c == 0;
  }

  /** Decrements the counter of each child and queues those that reach zero. */
  method ReleaseChildren(children: seq<string>, counters: map<string, nat>, queue: seq<string>)
    returns (counters': map<string, nat>, queue': seq<string>)
    requires forall x :: x in children ==> x in counters
    requires forall x :: x in counters ==> multiset(children)[x] <= counters[x]
    ensures |queue| <= |queue'| && queue'[..|queue|] == queue
    ensures Released(counters, children, counters', queue'[|queue|..])
    ensures queue'[|queue|..] == Zeroed(counters, children)
  {
    counters', queue' := counters, queue;
    ghost var added: seq<string> := [];
    for j := 0 to |children|
      invariant queue' == queue + added
      invariant Released(counters, children[..j], counters', added) && added == Zeroed(counters, children[..j])
    {
      StillPositive(counters, children, j, counters', added);
      ZeroedNext(counters, children[..j], children[j]);
      TakeNext(children, j);
      AppendInside(queue, added, children[j]);
      var ready;
      counters', ready := ReleaseChild(counters', children[j], counters, children[..j], added);
      if ready {
        queue' := queue' + [children[j]];
        added := added + [children[j]];
      }
    }
    assert children[..|children|] == children;
    DropFront(queue, added);
  }

  /** The counters after the first `i` edges. */
  ghost predicate Counted(ids: set<string>, edges: seq<DagEdge>, incoming: map<string, nat>) {
    && incoming.Keys == ids + (set e | e in edges :: e.dst)
    && (forall x :: x in incoming ==> incoming[x] == CountIn(edges, x, {}))
    && forall x :: x !in incoming ==> CountIn(edges, x, {}) == 0
  }

  /** The successor lists of an edge list. */
  ghost predicate Collected(edges: seq<DagEdge>, outgoing: map<string, seq<string>>) {
    && (forall x :: x in outgoing ==> outgoing[x] == Children(edges, x))
    && forall x :: x !in outgoing ==> Children(edges, x) == []
  }

  function ZeroCounters(nodes: seq<DagNode>): (r: map<string, nat>)
    ensures Counted(Elems(Ids(nodes)), [], r)
  {
    map id | id in Ids(nodes) :: 0
  }

  function Incremented(incoming: map<string, nat>, id: string): map<string, nat> {
    incoming[id := (if id in incoming then incoming[id] else 0) + 1]
  }

  function Linked(outgoing: map<string, seq<string>>, e: DagEdge): map<string, seq<string>> {
    outgoing[e.src := (if e.src in outgoing then outgoing[e.src] else []) + [e.dst]]
  }

  lemma CountedStep(ids: set<string>, edges: seq<DagEdge>, e: DagEdge, incoming: map<string, nat>)
    requires Counted(ids, edges, incoming)
    ensures Counted(ids, edges + [e], Incremented(incoming, e.dst))
  {
    var more := edges + [e];
    assert more[..|edges|] == edges;
    forall x ensures CountIn(more, x, {}) == CountIn(edges, x, {}) + (if e.dst == x then 1 else 0) {
    }
  }

  lemma CollectedStep(edges: seq<DagEdge>, e: DagEdge, outgoing: map<string, seq<string>>)
    requires Collected(edges, outgoing)
    ensures Collected(edges + [e], Linked(outgoing, e))
  {
    assert (edges + [e])[..|edges|] == edges;
    forall x ensures Children(edges + [e], x) == Children(edges, x) + (if e.src == x then [e.dst] else []) {
    }
  }

  /** Counts one more edge. */
  method CountEdge(ghost ids: set<string>, ghost done: seq<DagEdge>, e: DagEdge,
                   incoming: map<string, nat>, outgoing: map<string, seq<string>>)
    returns (incoming': map<string, nat>, outgoing': map<string, seq<string>>)
    requires Counted(ids, done, incoming) && Collected(done, outgoing)
    ensures Counted(ids, done + [e], incoming') && Collected(done + [e], outgoing')
  {
    CountedStep(ids, done, e, incoming);
    CollectedStep(done, e, outgoing);
    incoming', outgoing' := Incremented(incoming, e.dst), Linked(outgoing, e);
  }

  /** Counters and successor lists of all edges. */
  method CountEdges(spec: DagSpecification) returns (incoming: map<string, nat>, outgoing: map<string, seq<string>>)
    ensures Counted(Elems(Ids(spec.nodes)), spec.edges, incoming) && Collected(spec.edges, outgoing)
  {
    incoming := ZeroCounters(spec.nodes);
    outgoing := map[];
    ghost var ids, done := Elems(Ids(spec.nodes)), [];
    for i := 0 to |spec.edges|
      invariant done == spec.edges[..i]
      invariant Counted(ids, done, incoming) && Collected(done, outgoing)
    {
      var e := spec.edges[i];
      incoming, outgoing := CountEdge(ids, done, e, incoming, outgoing);
      done := done + [e];
    }
    assert done == spec.edges;
  }

  /** The ids whose counter is zero, in whatever order the hash map yields them. */
  method ReadyIds(incoming: map<string, nat>) returns (queue: seq<string>)
    ensures NoDup(queue)
    ensures forall x :: x in queue <==> x in incoming && incoming[x] == 0
  {
    queue := [];
    var todo := incoming.Keys;
    while todo != {}
      invariant todo <= incoming.Keys
      invariant NoDup(queue)
      invariant forall x :: x in queue <==> x in incoming && x !in todo && incoming[x] == 0
      decreases todo
    {
      var id :| id in todo;
      if incoming[id] == 0 {
        queue := queue + [id];
      }
      todo := todo - {id};
    }
  }

  /** What the queue loop keeps: counters count unfinished predecessors, and zero means popped or queued. */
  ghost predicate QueueInv(spec: DagSpecification, incoming: map<string, nat>, ordered: seq<string>,
                           queue: seq<string>) {
    && incoming.Keys == Keys(spec)
    && (forall x :: x in incoming ==> incoming[x] == CountIn(spec.edges, x, Elems(ordered)))
    && NoDup(ordered + queue)
    && (forall x :: x in ordered + queue <==> x in incoming && incoming[x] == 0)
    && Forward(spec.edges, ordered)
  }

  lemma QueueStart(spec: DagSpecification, incoming: map<string, nat>, queue: seq<string>)
    requires Counted(Elems(Ids(spec.nodes)), spec.edges, incoming)
    requires NoDup(queue) && forall x :: x in queue <==> x in incoming && incoming[x] == 0
    ensures QueueInv(spec, incoming, [], queue) && ReadyQueue(spec, queue)
  {
    assert [] + queue == queue && Elems<string>([]) == {};
    forall x ensures x in queue <==> x in Keys(spec) && PredsIn(spec.edges, x, {}) {
      CountInZero(spec.edges, x, {});
    }
  }

  lemma QueueEnd(spec: DagSpecification, incoming: map<string, nat>, ordered: seq<string>)
    requires QueueInv(spec, incoming, ordered, [])
    ensures Forward(spec.edges, ordered) && NoDup(ordered) && Elems(ordered) <= Keys(spec)
    ensures forall x :: x in Keys(spec) - Elems(ordered) ==> !PredsIn(spec.edges, x, Elems(ordered))
  {
    assert ordered + [] == ordered;
    forall x | x in Keys(spec) - Elems(ordered) ensures !PredsIn(spec.edges, x, Elems(ordered)) {
      CountInZero(spec.edges, x, Elems(ordered));
    }
  }

  /** The counters of the front id's children are large enough to be decremented. */
  lemma ReleaseAllowed(spec: DagSpecification, incoming: map<string, nat>, ordered: seq<string>, queue: seq<string>)
    requires QueueInv(spec, incoming, ordered, queue) && queue != []
    ensures var children := Children(spec.edges, queue[0]);
            && (forall c :: c in children ==> c in incoming)
            && forall x :: x in incoming ==> multiset(children)[x] <= incoming[x]
  {
    var id := queue[0];
    NoDupParts(ordered, queue);
    CountersAfter(spec, ordered, id);
    forall c | c in Children(spec.edges, id) ensures c in incoming {
      ChildrenAreTargets(spec.edges, id, c);
    }
  }

  /** The front id of the queue is new, and all its predecessors have been popped. */
  lemma FrontIsReady(spec: DagSpecification, incoming: map<string, nat>, ordered: seq<string>, queue: seq<string>)
    requires QueueInv(spec, incoming, ordered, queue) && queue != []
    ensures queue[0] in Keys(spec) && queue[0] !in ordered
    ensures Forward(spec.edges, ordered + [queue[0]])
  {
    assert queue[0] in ordered + queue;
    NoDupParts(ordered, queue);
    CountInZero(spec.edges, queue[0], Elems(ordered));
    ForwardAppend(spec.edges, ordered, queue[0]);
  }

  lemma AfterRelease(spec: DagSpecification, incoming: map<string, nat>, ordered: seq<string>, queue: seq<string>,
                     incoming': map<string, nat>, added: seq<string>)
    requires QueueInv(spec, incoming, ordered, queue) && queue != []
    requires Released(incoming, Children(spec.edges, queue[0]), incoming', added)
    ensures QueueInv(spec, incoming', ordered + [queue[0]], queue[1..] + added)
  {
    var id, all := queue[0], ordered + queue;
    assert all == (ordered + [id]) + queue[1..];
    ReleasedStaysDistinct(all, ordered + [id], queue[1..], queue[1..] + added, incoming, incoming');
    FrontIsReady(spec, incoming, ordered, queue);
    forall x | x in incoming' ensures incoming'[x] == CountIn(spec.edges, x, Elems(ordered + [id])) {
      CountersAfter(spec, ordered, id);
    }
  }

  /** One iteration: pop the front id and release its children. */
  method PopNext(spec: DagSpecification, outgoing: map<string, seq<string>>,
                 incoming: map<string, nat>, ordered: seq<string>, queue: seq<string>)
    returns (incoming': map<string, nat>, ordered': seq<string>, queue': seq<string>)
    requires QueueInv(spec, incoming, ordered, queue) && queue != []
    requires Collected(spec.edges, outgoing)
    ensures QueueInv(spec, incoming', ordered', queue')
    ensures queue[0] in Keys(spec) && queue[0] !in ordered
    ensures ordered' == ordered + [queue[0]] &&
            queue' == queue[1..] + Freed(spec.edges, Elems(ordered), Children(spec.edges, queue[0]))
  {
    var id := queue[0];
    ordered', queue' := ordered + [id], queue[1..];
    incoming' := incoming;
    ghost var front := queue';
    ReleaseAllowed(spec, incoming, ordered, queue);
    if id in outgoing {
      incoming', queue' := ReleaseChildren(outgoing[id], incoming, queue');
    }
    ghost var added := queue'[|front|..];
    assert queue' == front + added;
    FrontIsReady(spec, incoming, ordered, queue);
    AfterRelease(spec, incoming, ordered, queue, incoming', added);
    ZeroedIsFreed(spec.edges, Elems(ordered), incoming, Children(spec.edges, id));
  }

  /** Appending `id` to the popped ids lowers each counter by the edges from `id`. */
  lemma CountersAfter(spec: DagSpecification, ordered: seq<string>, id: string)
    requires id !in ordered
    ensures forall x :: CountIn(spec.edges, x, Elems(ordered)) ==
                        CountIn(spec.edges, x, Elems(ordered + [id])) + multiset(Children(spec.edges, id))[x]
  {
    assert Elems(ordered + [id]) == Elems(ordered) + {id};
    forall x ensures CountIn(spec.edges, x, Elems(ordered)) ==
                     CountIn(spec.edges, x, Elems(ordered) + {id}) + multiset(Children(spec.edges, id))[x] {
      CountInFinish(spec.edges, x, Elems(ordered), id);
    }
  }

  // ----- the queue loop as a function of its first queue

  /** The children that wait for no other node than the one being popped, each where its last edge stands. */
  ghost function Freed(edges: seq<DagEdge>, done: set<string>, children: seq<string>): seq<string> {
    if children == [] then []
    else
      var c := children[|children| - 1];
      Freed(edges, done, children[..|children| - 1]) +
        (if CountIn(edges, c, done) == multiset(children)[c] then [c] else [])
  }

  lemma {:induction false} ZeroedIsFreed(edges: seq<DagEdge>, done: set<string>, counters: map<string, nat>,
                                         children: seq<string>)
    requires forall c :: c in children ==> c in counters && counters[c] == CountIn(edges, c, done)
    ensures Zeroed(counters, children) == Freed(edges, done, children)
  {
    if children == [] {
    } else {
      var init, c := children[..|children| - 1], children[|children| - 1];
      assert c in children;
      ZeroedIsFreed(edges, done, counters, init);
    }
  }

  /** What is popped in the end, after `done` with `queue` still waiting. */
  ghost function KahnFrom(spec: DagSpecification, done: seq<string>, queue: seq<string>): seq<string>
    decreases Keys(spec) - Elems(done)
  {
    if queue == [] || queue[0] in done || queue[0] !in Keys(spec) then done
    else
      var id := queue[0];
      ElemsAppend(done, id);
      KahnFrom(spec, done + [id], queue[1..] + Freed(spec.edges, Elems(done), Children(spec.edges, id)))
  }

  lemma KahnPop(spec: DagSpecification, done: seq<string>, queue: seq<string>)
    requires queue != [] && queue[0] !in done && queue[0] in Keys(spec)
    ensures KahnFrom(spec, done, queue) ==
            KahnFrom(spec, done + [queue[0]],
                     queue[1..] + Freed(spec.edges, Elems(done), Children(spec.edges, queue[0])))
  {
  }

  lemma KahnStep(spec: DagSpecification, done: seq<string>, id: string, rest: seq<string>, freed: seq<string>)
    requires id !in done && id in Keys(spec)
    requires Freed(spec.edges, Elems(done), Children(spec.edges, id)) == freed
    ensures KahnFrom(spec, done, [id] + rest) == KahnFrom(spec, done + [id], rest + freed)
  {
    assert ([id] + rest)[1..] == rest;
  }

  ghost function Kahn(spec: DagSpecification, first: seq<string>): seq<string> {
    KahnFrom(spec, [], first)
  }

  /** A first queue: the ids no edge enters, in any order. */
  ghost predicate ReadyQueue(spec: DagSpecification, first: seq<string>) {
    NoDup(first) && forall x :: x in first <==> x in Keys(spec) && PredsIn(spec.edges, x, {})
  }

  /** The queue loop: pops every id whose predecessors have all been popped, in the order its first queue determines. */
  method DrainQueue(spec: DagSpecification) returns (ordered: seq<string>, ghost first: seq<string>)
    ensures Drained(spec, ordered)
    ensures ReadyQueue(spec, first) && ordered == Kahn(spec, first)
  {
    var incoming, outgoing := CountEdges(spec);
    var queue := ReadyIds(incoming);
    ordered := [];
    first := queue;
    QueueStart(spec, incoming, queue);
    while queue != []
      invariant QueueInv(spec, incoming, ordered, queue)
      invariant KahnFrom(spec, ordered, queue) == Kahn(spec, first)
      decreases Keys(spec) - Elems(ordered)
    {
      FrontIsReady(spec, incoming, ordered, queue);
      KahnPop(spec, ordered, queue);
      ElemsAppend(ordered, queue[0]);
      incoming, ordered, queue := PopNext(spec, outgoing, incoming, ordered, queue);
    }
    QueueEnd(spec, incoming, ordered);
  }

  /** Releasing children one after the other. */
  lemma {:induction false} ReleaseAll(before: map<string, nat>, children: seq<string>)
    returns (after: map<string, nat>, added: seq<string>)
    requires forall x :: x in children ==> x in before
    requires forall x :: x in before ==> multiset(children)[x] <= before[x]
    ensures Released(before, children, after, added) && added == Zeroed(before, children)
  {
    if children == [] {
      after, added := before, [];
    } else {
      var last := |children| - 1;
      assert children == children[..last] + [children[last]];
      var mid, some := ReleaseAll(before, children[..last]);
      StillPositive(before, children, last, mid, some);
      ReleasedStep(before, children[..last], mid, some, children[last]);
      ZeroedNext(before, children[..last], children[last]);
      after := mid[children[last] := mid[children[last]] - 1];
      added := if after[children[last]] == 0 then some + [children[last]] else some;
    }
  }

  /** The popped list is forward, and every id left out waits for an id that is not popped. */
  ghost predicate Drained(spec: DagSpecification, ordered: seq<string>) {
    && Forward(spec.edges, ordered) && NoDup(ordered) && Elems(ordered) <= Keys(spec)
    && forall x :: x in Keys(spec) - Elems(ordered) ==> !PredsIn(spec.edges, x, Elems(ordered))
  }

  lemma {:induction false} KahnDrains(spec: DagSpecification, incoming: map<string, nat>, ordered: seq<string>,
                                      queue: seq<string>)
    requires QueueInv(spec, incoming, ordered, queue)
    ensures Drained(spec, KahnFrom(spec, ordered, queue))
    decreases Keys(spec) - Elems(ordered)
  {
    if queue == [] {
      QueueEnd(spec, incoming, ordered);
    } else {
      var id, children := queue[0], Children(spec.edges, queue[0]);
      FrontIsReady(spec, incoming, ordered, queue);
      ReleaseAllowed(spec, incoming, ordered, queue);
      var after, added := ReleaseAll(incoming, children);
      AfterRelease(spec, incoming, ordered, queue, after, added);
      ZeroedIsFreed(spec.edges, Elems(ordered), incoming, children);
      ElemsAppend(ordered, id);
      KahnPop(spec, ordered, queue);
      KahnDrains(spec, after, ordered + [id], queue[1..] + added);
    }
  }

  /** Whatever the first queue, the loop pops exactly the ids that are not blocked, each after its predecessors. */
  lemma KahnPops(spec: DagSpecification, first: seq<string>)
    requires ReadyQueue(spec, first)
    ensures Drained(spec, Kahn(spec, first))
    ensures forall x :: x in Keys(spec) ==> (x in Kahn(spec, first) <==> !Blocked(spec, x))
  {
    var incoming := InitialCounters(spec);
    forall x ensures x in first <==> x in incoming && incoming[x] == 0 {
      CountInZero(spec.edges, x, {});
    }
    QueueStart(spec, incoming, first);
    KahnDrains(spec, incoming, [], first);
    forall x | x in Keys(spec) ensures x in Kahn(spec, first) <==> !Blocked(spec, x) {
      FinishedIffNotBlocked(spec, Kahn(spec, first), x);
    }
  }

  lemma InitialCounters(spec: DagSpecification) returns (incoming: map<string, nat>)
    ensures Counted(Elems(Ids(spec.nodes)), spec.edges, incoming) && incoming.Keys == Keys(spec)
  {
    incoming := map x | x in Keys(spec) :: CountIn(spec.edges, x, {});
    forall x | x !in incoming ensures CountIn(spec.edges, x, {}) == 0 {
      CountInZero(spec.edges, x, {});
    }
  }

  lemma ForwardAppend(edges: seq<DagEdge>, ids: seq<string>, id: string)
    requires Forward(edges, ids) && PredsIn(edges, id, Elems(ids))
    ensures Forward(edges, ids + [id])
  {
    var r := ids + [id];
    forall i | 0 <= i < |r| ensures PredsIn(edges, r[i], Elems(r[..i])) {
      assert r[..i] == ids[..i];
      assert ids[..|ids|] == ids;
    }
  }

  lemma ReleasedStaysDistinct(all: seq<string>, ordered: seq<string>, queue: seq<string>, queue': seq<string>,
                              before: map<string, nat>, after: map<string, nat>)
    requires all == ordered + queue && NoDup(all)
    requires forall x :: x in all <==> x in before && before[x] == 0
    requires after.Keys == before.Keys && forall x :: x in before ==> after[x] <= before[x]
    requires |queue| <= |queue'| && queue'[..|queue|] == queue && NoDup(queue'[|queue|..])
    requires forall x :: x in queue'[|queue|..] <==> x in before && before[x] > 0 && after[x] == 0
    ensures NoDup(ordered + queue')
    ensures forall x :: x in ordered + queue' <==> x in after && after[x] == 0
  {
    var added := queue'[|queue|..];
    assert queue' == queue + added;
    assert ordered + queue' == all + added;
    NoDupConcat(all, added);
    forall x ensures x in all + added <==> x in after && after[x] == 0 {
    }
  }

  // ----- the node list

  /** The first node declared under `id`. */
  function Find(nodes: seq<DagNode>, id: string): (r: Option<DagNode>)
    ensures r.Some? <==> id in Ids(nodes)
    ensures r.Some? ==> r.value in nodes && r.value.id == id
  {
    if nodes == [] then None
    else if nodes[0].id == id then assert id == Ids(nodes)[0]; Some(nodes[0])
    else
      assert Ids(nodes) == [nodes[0].id] + Ids(nodes[1..]);
      Find(nodes[1..], id)
  }

  /** The declared nodes of an id list, in its order. */
  function Lookup(nodes: seq<DagNode>, ids: seq<string>): seq<DagNode> {
    if ids == [] then []
    else
      var n := Find(nodes, ids[|ids| - 1]);
      Lookup(nodes, ids[..|ids| - 1]) + (if n.Some? then [n.value] else [])
  }

  /** Ids of `nodes` outside `popped`, in declaration order, each once. */
  function Leftover(nodes: seq<DagNode>, popped: seq<string>): seq<string> {
    if nodes == [] then []
    else
      var rest := Leftover(nodes[..|nodes| - 1], popped);
      var id := nodes[|nodes| - 1].id;
      if id in popped || id in rest then rest else rest + [id]
  }

  /** The ids of `ids` that are declared, in order. */
  ghost function DeclaredOnly(nodes: seq<DagNode>, ids: seq<string>): seq<string> {
    Filter(ids, id => id in Ids(nodes))
  }

  /** Looking up keeps the declared ids, in order. */
  lemma {:induction false} LookupIds(nodes: seq<DagNode>, ids: seq<string>)
    ensures Ids(Lookup(nodes, ids)) == DeclaredOnly(nodes, ids)
    ensures forall n :: n in Lookup(nodes, ids) ==> Find(nodes, n.id) == Some(n)
  {
    if ids == [] {
    } else {
      var init, last := ids[..|ids| - 1], ids[|ids| - 1];
      LookupIds(nodes, init);
      var n := Find(nodes, last);
      var tail := if n.Some? then [n.value] else [];
      assert Ids(Lookup(nodes, init) + tail) == Ids(Lookup(nodes, init)) + Ids(tail);
    }
  }

  lemma {:induction false} FilterAll<T>(s: seq<T>, p: T -> bool)
    requires forall x :: x in s ==> p(x)
    ensures Filter(s, p) == s
  {
    if s == [] {
    } else {
      FilterAll(s[..|s| - 1], p);
    }
  }

  lemma {:induction false} LeftoverFacts(nodes: seq<DagNode>, popped: seq<string>)
    ensures NoDup(Leftover(nodes, popped))
    ensures forall x :: x in Leftover(nodes, popped) <==> x in Ids(nodes) && x !in popped
  {
    if nodes == [] {
    } else {
      var init, last := nodes[..|nodes| - 1], nodes[|nodes| - 1];
      LeftoverFacts(init, popped);
      assert Ids(nodes) == Ids(init) + [last.id];
    }
  }

  /** When exactly the blocked ids are left over, the fallback appends the stuck ids. */
  lemma {:induction false} LeftoverIsStuck(spec: DagSpecification, nodes: seq<DagNode>, popped: seq<string>)
    requires forall x :: x in Ids(nodes) ==> (x in popped <==> !Blocked(spec, x))
    ensures Leftover(nodes, popped) == StuckIds(spec, nodes)
  {
    if nodes == [] {
    } else {
      var init, last := nodes[..|nodes| - 1], nodes[|nodes| - 1];
      assert Ids(nodes) == Ids(init) + [last.id];
      LeftoverIsStuck(spec, init, popped);
      assert last.id in Ids(nodes);
    }
  }

  /** Every edge between declared nodes into position `i` comes from an earlier position. */
  ghost predicate FedBefore(spec: DagSpecification, out: seq<DagNode>, i: int)
    requires 0 <= i < |out|
  {
    forall e :: e in spec.edges && e.dst == out[i].id && Declared(spec.nodes, e.src) ==> e.src in Ids(out[..i])
  }

  /** The list holds the first node of every declared id once. */
  ghost predicate OneNodePerId(nodes: seq<DagNode>, out: seq<DagNode>) {
    && NoDup(Ids(out))
    && Elems(Ids(out)) == Elems(Ids(nodes))
    && forall n :: n in out ==> Find(nodes, n.id) == Some(n)
  }

  /** An order the planner may return: unblocked nodes first, each fed by earlier ones, then the stuck ids. */
  ghost predicate PlannedOrder(spec: DagSpecification, out: seq<DagNode>) {
    var stuck := StuckIds(spec, spec.nodes);
    && OneNodePerId(spec.nodes, out)
    && |stuck| <= |out|
    && Ids(out[|out| - |stuck|..]) == stuck
    && forall i :: 0 <= i < |out| - |stuck| ==> FedBefore(spec, out, i)
  }

  /** A permutation of the nodes in which every edge goes forward. */
  ghost predicate TopoOrder(spec: DagSpecification, out: seq<DagNode>) {
    multiset(out) == multiset(spec.nodes) && Forward(spec.edges, Ids(out))
  }

  /** Looking up popped ids and then distinct declared others gives declared popped ids, then the others. */
  lemma LookupSplit(nodes: seq<DagNode>, popped: seq<string>, rest: seq<string>)
    requires NoDup(popped) && NoDup(rest)
    requires forall x :: x in rest <==> x in Ids(nodes) && x !in popped
    ensures var out, front := Lookup(nodes, popped + rest), DeclaredOnly(nodes, popped);
            Ids(out) == front + rest && OneNodePerId(nodes, out)
  {
    var declared := (id: string) => id in Ids(nodes);
    var out, front := Lookup(nodes, popped + rest), DeclaredOnly(nodes, popped);
    LookupIds(nodes, popped + rest);
    FilterConcat(popped, rest, declared);
    FilterAll(rest, declared);
    FilterNoDup(popped, declared);
    forall x ensures x in front <==> x in popped && x in Ids(nodes) {
      FilterMember(popped, declared, x);
    }
    NoDupConcat(front, rest);
    assert Elems(Ids(out)) == Elems(Ids(nodes));
  }

  lemma IdsPrefix(nodes: seq<DagNode>, i: nat)
    requires i <= |nodes|
    ensures Ids(nodes[..i]) == Ids(nodes)[..i]
  {
  }

  lemma IdsSplit(nodes: seq<DagNode>, front: seq<string>, back: seq<string>)
    requires Ids(nodes) == front + back
    ensures |nodes| == |front| + |back| && Ids(nodes[|front|..]) == back
  {
  }

  /** Looking up the popped ids and then the stuck ids gives a planned order. */
  lemma AssembleOrder(spec: DagSpecification, popped: seq<string>, out: seq<DagNode>)
    requires Forward(spec.edges, popped) && NoDup(popped)
    requires forall x :: x in Ids(spec.nodes) ==> (x in popped <==> !Blocked(spec, x))
    requires out == Lookup(spec.nodes, popped + StuckIds(spec, spec.nodes))
    ensures PlannedOrder(spec, out)
  {
    var stuck := StuckIds(spec, spec.nodes);
    LeftoverIsStuck(spec, spec.nodes, popped);
    LeftoverFacts(spec.nodes, popped);
    LookupSplit(spec.nodes, popped, stuck);
    var front := DeclaredOnly(spec.nodes, popped);
    IdsSplit(out, front, stuck);
    forall i | 0 <= i < |front| ensures FedBefore(spec, out, i) {
      FilterForward(spec, popped, i);
      IdsPrefix(out, i);
      assert front[..i] == (front + stuck)[..i];
    }
  }

  /** Dropping undeclared ids keeps declared predecessors in front. */
  lemma {:induction false} FilterForward(spec: DagSpecification, ids: seq<string>, i: nat)
    requires Forward(spec.edges, ids)
    requires i < |DeclaredOnly(spec.nodes, ids)|
    ensures var front := DeclaredOnly(spec.nodes, ids);
            forall e :: e in spec.edges && e.dst == front[i] && Declared(spec.nodes, e.src) ==> e.src in front[..i]
  {
    var init, last := ids[..|ids| - 1], ids[|ids| - 1];
    var front, shorter := DeclaredOnly(spec.nodes, ids), DeclaredOnly(spec.nodes, init);
    assert Forward(spec.edges, init) by {
      forall k | 0 <= k < |init| ensures PredsIn(spec.edges, init[k], Elems(init[..k])) {
        assert init[..k] == ids[..k];
        assert PredsIn(spec.edges, ids[k], Elems(ids[..k]));
      }
    }
    if i < |shorter| {
      FilterForward(spec, init, i);
      assert front[..i] == shorter[..i];
    } else {
      assert front == shorter + [last] && i == |shorter|;
      assert PredsIn(spec.edges, ids[|ids| - 1], Elems(ids[..|ids| - 1]));
      forall e | e in spec.edges && e.dst == front[i] && Declared(spec.nodes, e.src) ensures e.src in front[..i] {
        assert e.src in Elems(init);
        FilterMember(init, id => id in Ids(spec.nodes), e.src);
        assert front[..i] == shorter;
      }
    }
  }

  /** The order the planner computes from its first queue. */
  ghost function OrderFrom(spec: DagSpecification, first: seq<string>): seq<DagNode> {
    Lookup(spec.nodes, Kahn(spec, first) + StuckIds(spec, spec.nodes))
  }

  /** The orders `ordered_nodes` may return: one for each order of the first queue. */
  ghost predicate PossibleOrder(spec: DagSpecification, out: seq<DagNode>) {
    if spec.edges == [] then out == spec.nodes
    else exists first :: ReadyQueue(spec, first) && out == OrderFrom(spec, first)
  }

  /**
   On every specification: unblocked nodes first, each fed by earlier ones, then the stuck ids in declaration order.
   */
  lemma PossibleIsPlanned(spec: DagSpecification, out: seq<DagNode>)
    requires PossibleOrder(spec, out) && spec.edges != []
    ensures PlannedOrder(spec, out)
  {
    var first :| ReadyQueue(spec, first) && out == OrderFrom(spec, first);
    KahnPops(spec, first);
    AssembleOrder(spec, Kahn(spec, first), out);
  }

  /** There is a first queue, so there is an order. */
  lemma OrderExists(spec: DagSpecification) returns (out: seq<DagNode>)
    ensures PossibleOrder(spec, out)
  {
    if spec.edges == [] {
      out := spec.nodes;
    } else {
      var first := Listed(set x | x in Keys(spec) && PredsIn(spec.edges, x, {}));
      assert ReadyQueue(spec, first);
      out := OrderFrom(spec, first);
    }
  }

  lemma {:induction false} Listed(s: set<string>) returns (r: seq<string>)
    ensures NoDup(r) && forall x :: x in r <==> x in s
    decreases s
  {
    if s == {} {
      r := [];
    } else {
      var x :| x in s;
      r := Listed(s - {x});
      r := r + [x];
    }
  }

  /** The fallback: appends every declared id that is not listed yet. */
  method AppendLeftover(nodes: seq<DagNode>, popped: seq<string>) returns (ordered: seq<string>)
    ensures ordered == popped + Leftover(nodes, popped)
  {
    ordered := popped;
    for i := 0 to |nodes|
      invariant ordered == popped + Leftover(nodes[..i], popped)
    {
      assert nodes[..i + 1][..i] == nodes[..i];
      if nodes[i].id !in ordered {
        ordered := ordered + [nodes[i].id];
      }
    }
    assert nodes[..|nodes|] == nodes;
  }

  /** The nodes of an id list; undeclared ids are dropped. */
  method LookupNodes(nodes: seq<DagNode>, ids: seq<string>) returns (out: seq<DagNode>)
    ensures out == Lookup(nodes, ids)
  {
    out := [];
    for i := 0 to |ids|
      invariant out == Lookup(nodes, ids[..i])
    {
      assert ids[..i + 1][..i] == ids[..i];
      var n := Find(nodes, ids[i]);
      if n.Some? {
        out := out + [n.value];
      }
    }
    assert ids[..|ids|] == ids;
  }

  /** `ordered_nodes`: no assumption on the specification; every hash-map order is covered. */
  method OrderedNodes(spec: DagSpecification) returns (out: seq<DagNode>)
    ensures PossibleOrder(spec, out)
    ensures spec.edges != [] ==> PlannedOrder(spec, out)
    ensures DistinctIds(spec.nodes) && DeclaredEdges(spec) && Acyclic(spec.edges) ==> TopoOrder(spec, out)
  {
    if spec.edges == [] {
      out := spec.nodes;
      return;
    }
    ghost var first;
    var popped;
    popped, first := DrainQueue(spec);
    KahnPops(spec, first);
    var ordered := AppendLeftover(spec.nodes, popped);
    LeftoverIsStuck(spec, spec.nodes, popped);
    out := LookupNodes(spec.nodes, ordered);
    assert out == OrderFrom(spec, first);
    PossibleIsPlanned(spec, out);
    if DistinctIds(spec.nodes) && DeclaredEdges(spec) && Acyclic(spec.edges) {
      AcyclicIsTopological(spec, out);
    }
  }

  /** With distinct ids the order is a permutation of the declared nodes. */
  lemma OrderIsPermutation(nodes: seq<DagNode>, out: seq<DagNode>)
    requires OneNodePerId(nodes, out) && DistinctIds(nodes)
    ensures multiset(out) == multiset(nodes)
  {
    NodesNoDup(out);
    NodesNoDup(nodes);
    forall n ensures n in out <==> n in nodes {
      if n in out {
        assert Find(nodes, n.id) == Some(n);
      }
      if n in nodes {
        var i :| 0 <= i < |nodes| && nodes[i] == n;
        assert n.id == Ids(nodes)[i] && n.id in Elems(Ids(out));
        var k :| 0 <= k < |out| && Ids(out)[k] == n.id;
        var m := out[k];
        assert m in out && Find(nodes, m.id) == Some(m);
        var j :| 0 <= j < |nodes| && nodes[j] == m;
        assert Ids(nodes)[j] == Ids(nodes)[i];
      }
    }
    assert Elems(out) == Elems(nodes);
    NoDupMultiset(out, nodes);
  }

  lemma NodesNoDup(nodes: seq<DagNode>)
    requires NoDup(Ids(nodes))
    ensures NoDup(nodes)
  {
    forall i, j | 0 <= i < j < |nodes| ensures nodes[i] != nodes[j] {
      assert Ids(nodes)[i] != Ids(nodes)[j];
    }
  }

  /** Between declared nodes, blocked means reachable from a cycle. */
  lemma BlockedIffFromCycle(spec: DagSpecification, x: string)
    requires DeclaredEdges(spec) && Declared(spec.nodes, x)
    ensures Blocked(spec, x) <==>
            exists s :: Reaches(spec.edges, s, s) && (s == x || Reaches(spec.edges, s, x))
  {
    forall s | BlockedBy(spec, s, x) ensures Reaches(spec.edges, s, s) {
      if s != x {
        var p :| PathFromTo(spec.edges, p, s, x) && |p| >= 2;
        assert Adjacent(spec.edges, p, 0);
      }
      assert Declared(spec.nodes, s);
      assert s in Elems(Ids(spec.nodes));
    }
    forall s | Reaches(spec.edges, s, s) && (s == x || Reaches(spec.edges, s, x)) ensures Blocked(spec, x) {
      assert BlockedBy(spec, s, x);
    }
  }

  lemma {:induction false} NothingStuck(spec: DagSpecification, nodes: seq<DagNode>)
    requires forall x :: x in Ids(nodes) ==> !Blocked(spec, x)
    ensures StuckIds(spec, nodes) == []
  {
    if nodes == [] {
    } else {
      assert Ids(nodes) == Ids(nodes[..|nodes| - 1]) + [nodes[|nodes| - 1].id];
      NothingStuck(spec, nodes[..|nodes| - 1]);
    }
  }

  /** On an acyclic graph nothing is stuck and every edge goes forward. */
  lemma AcyclicIsTopological(spec: DagSpecification, out: seq<DagNode>)
    requires PlannedOrder(spec, out)
    requires DistinctIds(spec.nodes) && DeclaredEdges(spec) && Acyclic(spec.edges)
    ensures TopoOrder(spec, out)
  {
    forall x | x in Ids(spec.nodes) ensures !Blocked(spec, x) {
      BlockedIffFromCycle(spec, x);
    }
    NothingStuck(spec, spec.nodes);
    OrderIsPermutation(spec.nodes, out);
    forall i | 0 <= i < |out| ensures PredsIn(spec.edges, Ids(out)[i], Elems(Ids(out)[..i])) {
      assert FedBefore(spec, out, i);
      assert Ids(out)[..i] == Ids(out[..i]);
    }
  }
}
