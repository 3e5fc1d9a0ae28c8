// Scheduling: Kahn's topological order over the control edges of a workflow.
module WorkflowGraph {
  import opened Digraph
  import opened OrderedSets
  import opened Workflow

  datatype Schedule = Ok(order: seq<Id>) | Cycle(unscheduled: seq<Id>)

  /** What a caller of the scheduler relies on: each declared node once, every control edge forward. */
  ghost predicate ValidSchedule(doc: Document, order: seq<Id>) {
    Elements(order) == Ids(doc.nodes) && Eliminates(ControlArcs(doc.edges, Ids(doc.nodes)), order)
  }

  /** Some id without incoming control edges is declared more than once. */
  ghost predicate DuplicateRoot(doc: Document) {
    exists i, j :: 0 <= i < j < |doc.nodes| && doc.nodes[i].id == doc.nodes[j].id && IsRoot(doc, doc.nodes[i].id)
  }

  ghost predicate IsRoot(doc: Document, id: Id) {
    Pending(ControlArcs(doc.edges, Ids(doc.nodes)), id, {}) == 0
  }

  // -------------------------------------------------------- the scheduler

  /** Targets, among the declared nodes, of a list of edges. */
  ghost function LiveTargets(out: seq<Edge>, ids: set<Id>): seq<Id> {
    if out == [] then []
    else (if out[0].target in ids then [out[0].target] else []) + LiveTargets(out[1..], ids)
  }

  lemma {:induction false} LiveTargetsOfNode(edges: seq<Edge>, ids: set<Id>, id: Id)
    requires id in ids
    ensures Targets(ControlArcs(edges, ids), id) == LiveTargets(EdgesFrom(edges, id), ids)
  {
    if edges != [] {
      LiveTargetsOfNode(edges[1..], ids, id);
      var e, rest := edges[0], ControlArcs(edges[1..], ids);
      if e.kind == Control && e.source in ids && e.target in ids {
        assert ControlArcs(edges, ids) == [(e.source, e.target)] + rest;
        assert ([(e.source, e.target)] + rest)[1..] == rest;
      } else {
        assert ControlArcs(edges, ids) == rest;
      }
      if e.kind == Control && e.source == id {
        assert EdgesFrom(edges, id) == [e] + EdgesFrom(edges[1..], id);
        assert ([e] + EdgesFrom(edges[1..], id))[1..] == EdgesFrom(edges[1..], id);
      } else {
        assert EdgesFrom(edges, id) == EdgesFrom(edges[1..], id);
      }
    }
  }

  lemma {:induction false} ControlArcsSnoc(edges: seq<Edge>, e: Edge, ids: set<Id>)
    ensures ControlArcs(edges + [e], ids) == ControlArcs(edges, ids) +
      (if e.kind == Control && e.source in ids && e.target in ids then [(e.source, e.target)] else [])
  {
    if edges == [] {
      assert edges + [e] == [e] && [e][1..] == [];
    } else {
      assert (edges + [e])[1..] == edges[1..] + [e];
      ControlArcsSnoc(edges[1..], e, ids);
    }
  }

  lemma CountStep(edges: seq<Edge>, i: nat, ids: set<Id>, n: Id)
    requires i < |edges|
    ensures Pending(ControlArcs(edges[..i + 1], ids), n, {}) == Pending(ControlArcs(edges[..i], ids), n, {}) +
      (if edges[i].kind == Control && edges[i].source in ids && edges[i].target in ids && edges[i].target == n then 1 else 0)
  {
    assert edges[..i + 1] == edges[..i] + [edges[i]];
    ControlArcsSnoc(edges[..i], edges[i], ids);
    PendingSnoc(ControlArcs(edges[..i], ids), (edges[i].source, edges[i].target), n);
    assert ControlArcs(edges[..i], ids) + [] == ControlArcs(edges[..i], ids);
  }

  /** Incoming control edges with both ends declared, per declared node. */
  method CountIncoming(doc: Document) returns (indegree: map<Id, int>)
    ensures indegree.Keys == Ids(doc.nodes)
    ensures forall n :: n in indegree ==> indegree[n] == Pending(ControlArcs(doc.edges, Ids(doc.nodes)), n, {})
  {
    ghost var ids := Ids(doc.nodes);
    indegree := map[];
    for i := 0 to |doc.nodes|
      invariant indegree.Keys == Ids(doc.nodes[..i])
      invariant forall n :: n in indegree ==> indegree[n] == 0
    {
      if doc.nodes[i].id !in indegree {
        indegree := indegree[doc.nodes[i].id := 0];
      }
      assert doc.nodes[..i + 1] == doc.nodes[..i] + [doc.nodes[i]];
    }
    assert doc.nodes[..|doc.nodes|] == doc.nodes;
    for i := 0 to |doc.edges|
      invariant indegree.Keys == ids
      invariant forall n :: n in indegree ==> indegree[n] == Pending(ControlArcs(doc.edges[..i], ids), n, {})
    {
      var edge := doc.edges[i];
      forall n | n in ids {
        CountStep(doc.edges, i, ids, n);
      }
      if edge.kind == Control && edge.target in indegree && edge.source in indegree {
        indegree := indegree[edge.target := indegree[edge.target] + 1];
      }
    }
    assert doc.edges[..|doc.edges|] == doc.edges;
  }

  /** Facts about the main loop that hold whether or not ids are declared twice. */
  ghost predicate Running(doc: Document, indegree: map<Id, int>, ready: seq<Id>, order: seq<Id>, roots: seq<Id>) {
    && indegree.Keys == Ids(doc.nodes)
    && (forall n :: n in indegree ==> indegree[n] >= 0)
    && (forall n :: n in ready || n in order ==> n in Ids(doc.nodes))
    && (forall n :: multiset(order)[n] + multiset(ready)[n] >= multiset(roots)[n])
  }

  ghost predicate LoopState(doc: Document, indegree: map<Id, int>, ready: seq<Id>, order: seq<Id>, roots: seq<Id>) {
    && Running(doc, indegree, ready, order, roots)
    && (!DuplicateRoot(doc) ==>
          KahnState(Ids(doc.nodes), ControlArcs(doc.edges, Ids(doc.nodes)), indegree, ready, order))
  }

  ghost predicate Popped(doc: Document, indegree: map<Id, int>, ready: seq<Id>, order: seq<Id>, roots: seq<Id>,
                         current: Id)
  {
    && Running(doc, indegree, ready, order, roots)
    && (!DuplicateRoot(doc) ==>
          Relaxing(Ids(doc.nodes), ControlArcs(doc.edges, Ids(doc.nodes)), indegree, ready, order, current, 0))
  }

  /** A decrement that never goes below zero never loses or duplicates queued work. */
  lemma DecrementKeepsRunning(doc: Document, indegree: map<Id, int>, ready: seq<Id>, order: seq<Id>, roots: seq<Id>,
                              t: Id)
    requires Running(doc, indegree, ready, order, roots)
    requires t in indegree && indegree[t] > 0
    ensures
      var after, grown := Relaxed(indegree, t), if indegree[t] == 1 then ready + [t] else ready;
      Running(doc, after, grown, order, roots) && |grown| + |Positive(after)| == |ready| + |Positive(indegree)|
  {
    var after := Relaxed(indegree, t);
    if indegree[t] == 1 {
      assert Positive(indegree) == Positive(after) + {t};
      assert forall n :: multiset(ready + [t])[n] >= multiset(ready)[n];
    } else {
      assert Positive(indegree) == Positive(after);
    }
  }

  lemma RelaxLive(doc: Document, indegree: map<Id, int>, ready: seq<Id>, order: seq<Id>, current: Id, j: nat, t: Id,
                  rest: seq<Id>)
    requires
      var ids := Ids(doc.nodes);
      var ts := Targets(ControlArcs(doc.edges, ids), current);
      j <= |ts| && ts[j..] == [t] + rest && t in ids && indegree.Keys == ids
    ensures
      var ids := Ids(doc.nodes);
      var arcs := ControlArcs(doc.edges, ids);
      j + 1 <= |Targets(arcs, current)| && Targets(arcs, current)[j + 1..] == rest &&
      (Relaxing(ids, arcs, indegree, ready, order, current, j) ==>
         indegree[t] > 0 &&
         Relaxing(ids, arcs, Relaxed(indegree, t), if indegree[t] == 1 then ready + [t] else ready, order, current, j + 1))
  {
    var ids := Ids(doc.nodes);
    var arcs := ControlArcs(doc.edges, ids);
    var ts := Targets(arcs, current);
    assert ts[j] == ts[j..][0] == t;
    assert ts[j + 1..] == ts[j..][1..] == rest;
    if Relaxing(ids, arcs, indegree, ready, order, current, j) {
      RelaxTarget(ids, arcs, indegree, ready, order, current, j);
      KahnRelax(ids, arcs, indegree, ready, order, current, j);
    }
  }

  /** Midway through the edges of `current`: `rest` is what remains of its live targets, from position `j`. */
  ghost predicate Midway(doc: Document, indegree: map<Id, int>, ready: seq<Id>, order: seq<Id>, roots: seq<Id>,
                         current: Id, j: nat, rest: seq<Id>)
  {
    var ids := Ids(doc.nodes);
    var ts := Targets(ControlArcs(doc.edges, ids), current);
    && Running(doc, indegree, ready, order, roots)
    && j <= |ts| && ts[j..] == rest
    && (!DuplicateRoot(doc) ==> Relaxing(ids, ControlArcs(doc.edges, ids), indegree, ready, order, current, j))
  }

  /** A decrement, skipped when the count is already zero. */
  function Lowered(indegree: map<Id, int>, t: Id): map<Id, int>
    requires t in indegree
  {
    if indegree[t] == 0 then indegree else indegree[t := indegree[t] - 1]
  }

  function Grown(indegree: map<Id, int>, ready: seq<Id>, t: Id): seq<Id>
    requires t in indegree
  {
    if indegree[t] == 1 then ready + [t] else ready
  }

  /** Decrements for a list of targets, one after the other; those that reach zero are queued. */
  ghost function Relax(live: seq<Id>, indegree: map<Id, int>, ready: seq<Id>): (r: (map<Id, int>, seq<Id>))
    requires forall t :: t in live ==> t in indegree
    ensures r.0.Keys == indegree.Keys
    ensures |r.1| + |Positive(r.0)| == |ready| + |Positive(indegree)|
  {
    if live == [] then (indegree, ready)
    else
      LoweredIsQueued(indegree, ready, live[0]);
      Relax(live[1..], Lowered(indegree, live[0]), Grown(indegree, ready, live[0]))
  }

  lemma LoweredIsQueued(indegree: map<Id, int>, ready: seq<Id>, t: Id)
    requires t in indegree
    ensures |Grown(indegree, ready, t)| + |Positive(Lowered(indegree, t))| == |ready| + |Positive(indegree)|
  {
    if indegree[t] == 1 {
      assert Positive(indegree) == Positive(Lowered(indegree, t)) + {t};
    } else {
      assert Positive(indegree) == Positive(Lowered(indegree, t));
    }
  }

  lemma {:induction false} LiveTargetsAreLive(out: seq<Edge>, ids: set<Id>)
    ensures forall t :: t in LiveTargets(out, ids) ==> t in ids
  {
    if out != [] {
      LiveTargetsAreLive(out[1..], ids);
    }
  }

  /** The declared targets of a node's control edges, in document order. */
  ghost function Successors(doc: Document, id: Id): (r: seq<Id>)
    ensures forall t :: t in r ==> t in Ids(doc.nodes)
  {
    LiveTargetsAreLive(EdgesFrom(doc.edges, id), Ids(doc.nodes));
    LiveTargets(EdgesFrom(doc.edges, id), Ids(doc.nodes))
  }

  /** The order in which a queue empties. */
  ghost function Drain(doc: Document, indegree: map<Id, int>, ready: seq<Id>, order: seq<Id>): seq<Id>
    requires indegree.Keys == Ids(doc.nodes)
    decreases |ready| + |Positive(indegree)|
  {
    if ready == [] then order
    else
      var next := Relax(Successors(doc, ready[0]), indegree, ready[1..]);
      Drain(doc, next.0, next.1, order + [ready[0]])
  }

  lemma {:induction false} RelaxAppends(live: seq<Id>, indegree: map<Id, int>, ready: seq<Id>)
    requires forall t :: t in live ==> t in indegree
    ensures ready <= Relax(live, indegree, ready).1
  {
    if live != [] {
      LoweredIsQueued(indegree, ready, live[0]);
      RelaxAppends(live[1..], Lowered(indegree, live[0]), Grown(indegree, ready, live[0]));
    }
  }

  /** First in, first out: what is queued is scheduled next, in the order of the queue. */
  lemma {:induction false} QueueIsScheduledInOrder(doc: Document, indegree: map<Id, int>, ready: seq<Id>, order: seq<Id>)
    requires indegree.Keys == Ids(doc.nodes)
    ensures order + ready <= Drain(doc, indegree, ready, order)
    decreases |ready| + |Positive(indegree)|
  {
    hide Relax, Successors, Positive;
    if ready == [] {
      assert order + ready == order;
    } else {
      var live := Successors(doc, ready[0]);
      var next := Relax(live, indegree, ready[1..]);
      RelaxAppends(live, indegree, ready[1..]);
      QueueIsScheduledInOrder(doc, next.0, next.1, order + [ready[0]]);
      assert order + ready == (order + [ready[0]]) + ready[1..];
    }
  }

  /** The id has no incoming control edge from a declared node. */
  ghost predicate Unpreceded(doc: Document, id: Id) {
    forall e :: e in doc.edges && e.kind == Control && e.target == id ==> e.source !in Ids(doc.nodes)
  }

  lemma RootsAreUnpreceded(doc: Document, id: Id)
    requires id in Ids(doc.nodes)
    ensures IsRoot(doc, id) <==> Unpreceded(doc, id)
  {
    hide ControlArcs;
    var arcs := ControlArcs(doc.edges, Ids(doc.nodes));
    PendingZero(arcs, id, {});
    ControlArcsExact(doc.edges, Ids(doc.nodes));
    if !Unpreceded(doc, id) {
      var e :| e in doc.edges && e.kind == Control && e.target == id && e.source in Ids(doc.nodes);
      assert (e.source, id) in arcs;
    }
  }

  /** What it means that a root is declared twice. */
  lemma DuplicateRootMeans(doc: Document)
    ensures DuplicateRoot(doc) <==>
      exists i, j :: 0 <= i < j < |doc.nodes| && doc.nodes[i].id == doc.nodes[j].id && Unpreceded(doc, doc.nodes[i].id)
  {
    hide IsRoot, Unpreceded;
    forall i | 0 <= i < |doc.nodes| ensures IsRoot(doc, doc.nodes[i].id) <==> Unpreceded(doc, doc.nodes[i].id) {
      assert doc.nodes[i] in doc.nodes;
      RootsAreUnpreceded(doc, doc.nodes[i].id);
    }
  }

  /** An accepted order starts with the declared nodes that nothing precedes, in the order of declaration. */
  lemma OrdersStartWithTheRoots(doc: Document)
    requires ScheduleOf(doc).Ok?
    ensures Kept(NodeIds(doc.nodes), id => Unpreceded(doc, id)) <= ScheduleOf(doc).order
  {
    hide IsRoot, Unpreceded, Drain;
    QueueIsScheduledInOrder(doc, Incoming(doc), Roots(doc), []);
    assert [] + Roots(doc) == Roots(doc);
    NodeIdsCover(doc.nodes);
    forall id | id in NodeIds(doc.nodes) ensures IsRoot(doc, id) <==> Unpreceded(doc, id) {
      RootsAreUnpreceded(doc, id);
    }
    KeptCongruent(NodeIds(doc.nodes), id => IsRoot(doc, id), id => Unpreceded(doc, id));
  }

  /** In-degrees before anything is scheduled. */
  ghost function Incoming(doc: Document): (r: map<Id, int>)
    ensures r.Keys == Ids(doc.nodes)
  {
    map n | n in Ids(doc.nodes) :: Pending(ControlArcs(doc.edges, Ids(doc.nodes)), n, {})
  }

  /** The nodes without incoming control edges, as often as they are declared. */
  ghost function Roots(doc: Document): seq<Id> {
    Kept(NodeIds(doc.nodes), id => IsRoot(doc, id))
  }

  /** What the scheduler answers, whether or not ids repeat. */
  ghost function ScheduleOf(doc: Document): Schedule {
    var order := Drain(doc, Incoming(doc), Roots(doc), []);
    if |order| == |Ids(doc.nodes)| then Ok(order) else Cycle(Kept(NodeIds(doc.nodes), id => id !in order))
  }

  lemma MidwayStep(doc: Document, indegree: map<Id, int>, ready: seq<Id>, order: seq<Id>, roots: seq<Id>,
                   current: Id, j: nat, t: Id, rest: seq<Id>)
    requires Midway(doc, indegree, ready, order, roots, current, j, [t] + rest) && t in indegree
    ensures Midway(doc, Lowered(indegree, t), Grown(indegree, ready, t), order, roots, current, j + 1, rest)
  {
    RelaxLive(doc, indegree, ready, order, current, j, t, rest);
    if indegree[t] > 0 {
      DecrementKeepsRunning(doc, indegree, ready, order, roots, t);
    }
  }

  lemma MidwayBegins(doc: Document, indegree: map<Id, int>, ready: seq<Id>, order: seq<Id>, roots: seq<Id>, current: Id)
    requires current in Ids(doc.nodes) && Popped(doc, indegree, ready, order, roots, current)
    ensures Midway(doc, indegree, ready, order, roots, current, 0, Successors(doc, current))
  {
    LiveTargetsOfNode(doc.edges, Ids(doc.nodes), current);
    var ts := Targets(ControlArcs(doc.edges, Ids(doc.nodes)), current);
    assert ts[0..] == ts;
  }

  lemma MidwayEnds(doc: Document, indegree: map<Id, int>, ready: seq<Id>, order: seq<Id>, roots: seq<Id>,
                   current: Id, j: nat)
    requires Midway(doc, indegree, ready, order, roots, current, j, [])
    ensures LoopState(doc, indegree, ready, order, roots)
  {
    if !DuplicateRoot(doc) {
      KahnRelaxed(Ids(doc.nodes), ControlArcs(doc.edges, Ids(doc.nodes)), indegree, ready, order, current);
    }
  }

  lemma {:induction false} RelaxRuns(doc: Document, indegree: map<Id, int>, ready: seq<Id>, order: seq<Id>,
                                     roots: seq<Id>, current: Id, j: nat, rest: seq<Id>)
    requires Midway(doc, indegree, ready, order, roots, current, j, rest)
    requires forall t :: t in rest ==> t in indegree
    ensures var after := Relax(rest, indegree, ready); LoopState(doc, after.0, after.1, order, roots)
    decreases rest
  {
    hide Midway, LoopState;
    if rest == [] {
      MidwayEnds(doc, indegree, ready, order, roots, current, j);
    } else {
      assert [rest[0]] + rest[1..] == rest;
      MidwayStep(doc, indegree, ready, order, roots, current, j, rest[0], rest[1..]);
      RelaxRuns(doc, Lowered(indegree, rest[0]), Grown(indegree, ready, rest[0]), order, roots, current, j + 1, rest[1..]);
    }
  }

  /** One edge more: its target counts only if it is declared. */
  lemma RelaxEdgeStep(out: seq<Edge>, k: nat, ids: set<Id>, indegree: map<Id, int>, ready: seq<Id>)
    requires k < |out| && indegree.Keys == ids
    ensures forall i {:trigger LiveTargets(out[i..], ids)} ::
      0 <= i <= |out| ==> forall t :: t in LiveTargets(out[i..], ids) ==> t in ids
    ensures
      var t := out[k].target;
      Relax(LiveTargets(out[k..], ids), indegree, ready) ==
        if t in ids then Relax(LiveTargets(out[k + 1..], ids), Lowered(indegree, t), Grown(indegree, ready, t))
        else Relax(LiveTargets(out[k + 1..], ids), indegree, ready)
  {
    forall i | 0 <= i <= |out| ensures forall t :: t in LiveTargets(out[i..], ids) ==> t in ids {
      LiveTargetsAreLive(out[i..], ids);
    }
    assert out[k..][0] == out[k] && out[k..][1..] == out[k + 1..];
    var rest := LiveTargets(out[k + 1..], ids);
    assert out[k].target in ids ==> ([out[k].target] + rest)[1..] == rest;
    assert [] + rest == rest;
  }

  /** One pass over the edges leaving the node just scheduled. */
  method RelaxEdges(doc: Document, current: Id, inDegree: map<Id, int>, queue: seq<Id>)
    returns (indegree: map<Id, int>, ready: seq<Id>)
    requires inDegree.Keys == Ids(doc.nodes)
    ensures (indegree, ready) == Relax(Successors(doc, current), inDegree, queue)
  {
    ghost var ids := Ids(doc.nodes);
    indegree, ready := inDegree, queue;
    var out := EdgesFrom(doc.edges, current);
    assert out[0..] == out && LiveTargets(out[|out|..], ids) == [];
    LiveTargetsAreLive(out, ids);
    hide EdgesFrom, LiveTargets, Positive, NodeIds, Ids;
    for k := 0 to |out|
      invariant indegree.Keys == ids && forall t :: t in LiveTargets(out[k..], ids) ==> t in ids
      invariant Relax(LiveTargets(out[k..], ids), indegree, ready) == Relax(Successors(doc, current), inDegree, queue)
    {
      hide Relax, Successors;
      var target := out[k].target;
      RelaxEdgeStep(out, k, ids, indegree, ready);
      if target !in indegree || indegree[target] == 0 {
        continue;
      }
      indegree := indegree[target := indegree[target] - 1];
      if indegree[target] == 0 {
        ready := ready + [target];
      }
    }
  }

  /** The initial ready list repeats an id exactly when a root is declared twice. */
  lemma RootsRepeat(doc: Document, roots: seq<Id>)
    requires roots == Roots(doc)
    ensures NoDuplicates(roots) <==> !DuplicateRoot(doc)
  {
    var ids, keep := NodeIds(doc.nodes), id => IsRoot(doc, id);
    KeptNoDuplicates(ids, keep);
    if DuplicateRoot(doc) {
      var i, j :| 0 <= i < j < |doc.nodes| && doc.nodes[i].id == doc.nodes[j].id && IsRoot(doc, doc.nodes[i].id);
      assert keep(ids[i]) && ids[i] == ids[j];
    }
    if !NoRepeat(ids, keep) {
      var i, j :| 0 <= i < j < |ids| && keep(ids[i]) && ids[i] == ids[j];
      assert doc.nodes[i].id == doc.nodes[j].id && IsRoot(doc, doc.nodes[i].id);
    }
  }

  method ReadyNodes(doc: Document, indegree: map<Id, int>) returns (ready: seq<Id>)
    requires indegree == Incoming(doc)
    ensures ready == Roots(doc)
  {
    ready := [];
    ghost var keep := id => IsRoot(doc, id);
    for i := 0 to |doc.nodes|
      invariant ready == Kept(NodeIds(doc.nodes)[..i], keep)
    {
      assert NodeIds(doc.nodes)[..i + 1] == NodeIds(doc.nodes)[..i] + [doc.nodes[i].id];
      KeptSnoc(NodeIds(doc.nodes)[..i], doc.nodes[i].id, keep);
      if indegree[doc.nodes[i].id] == 0 {
        ready := ready + [doc.nodes[i].id];
      }
    }
    assert NodeIds(doc.nodes)[..|doc.nodes|] == NodeIds(doc.nodes);
  }

  method Unscheduled(doc: Document, scheduled: set<Id>) returns (r: seq<Id>)
    ensures r == Kept(NodeIds(doc.nodes), id => id !in scheduled)
  {
    r := [];
    ghost var keep := id => id !in scheduled;
    for i := 0 to |doc.nodes|
      invariant r == Kept(NodeIds(doc.nodes)[..i], keep)
    {
      assert NodeIds(doc.nodes)[..i + 1] == NodeIds(doc.nodes)[..i] + [doc.nodes[i].id];
      KeptSnoc(NodeIds(doc.nodes)[..i], doc.nodes[i].id, keep);
      if doc.nodes[i].id !in scheduled {
        r := r + [doc.nodes[i].id];
      }
    }
    assert NodeIds(doc.nodes)[..|doc.nodes|] == NodeIds(doc.nodes);
  }

  /** What the finished loop has established. */
  lemma ScheduleComplete(doc: Document, indegree: map<Id, int>, order: seq<Id>, roots: seq<Id>)
    requires LoopState(doc, indegree, [], order, roots) && roots == Roots(doc)
    ensures ValidSchedule(doc, order) ==> !DuplicateRoot(doc)
    ensures
      var ids := Ids(doc.nodes);
      var arcs := ControlArcs(doc.edges, ids);
      !DuplicateRoot(doc) ==>
        && (|order| == |ids| <==> Acyclic(arcs))
        && (|order| == |ids| <==> ValidSchedule(doc, order))
        && (forall n :: n in ids ==> (n !in order <==> BehindCycle(arcs, n)))
  {
    RootsRepeat(doc, roots);
    assert forall n :: multiset(order)[n] >= multiset(roots)[n];
    if NoDuplicates(order) {
      RepeatedStaysRepeated(order, roots);
    }
    if !DuplicateRoot(doc) {
      KahnComplete(Ids(doc.nodes), ControlArcs(doc.edges, Ids(doc.nodes)), indegree, order);
      KahnFinish(Ids(doc.nodes), ControlArcs(doc.edges, Ids(doc.nodes)), indegree, order);
    }
  }

  lemma ScheduleStart(doc: Document, indegree: map<Id, int>, roots: seq<Id>)
    requires roots == Roots(doc) && indegree == Incoming(doc)
    ensures LoopState(doc, indegree, roots, [], roots)
  {
    NodeIdsCover(doc.nodes);
    KeptIsExact(NodeIds(doc.nodes), id => IsRoot(doc, id));
    RootsRepeat(doc, roots);
    if !DuplicateRoot(doc) {
      ArcsDeclared(doc);
      KahnStart(Ids(doc.nodes), ControlArcs(doc.edges, Ids(doc.nodes)), indegree, roots);
    }
  }

  lemma SchedulePop(doc: Document, indegree: map<Id, int>, ready: seq<Id>, order: seq<Id>, roots: seq<Id>)
    requires LoopState(doc, indegree, ready, order, roots) && ready != []
    ensures ready[0] in Ids(doc.nodes)
    ensures Popped(doc, indegree, ready[1..], order + [ready[0]], roots, ready[0])
  {
    assert ready == [ready[0]] + ready[1..];
    assert multiset(ready) == multiset{ready[0]} + multiset(ready[1..]);
    if !DuplicateRoot(doc) {
      KahnPop(Ids(doc.nodes), ControlArcs(doc.edges, Ids(doc.nodes)), indegree, ready, order, 0);
      assert ready[..0] + ready[0 + 1..] == ready[1..];
    }
  }

  lemma {:induction false} RelaxCovers(arcs: seq<Arc>, live: seq<Id>, indegree: map<Id, int>, ready: seq<Id>, done: set<Id>)
    requires Covering(arcs, indegree, ready, done, live) && forall t :: t in live ==> t in indegree
    ensures Covering(arcs, Relax(live, indegree, ready).0, Relax(live, indegree, ready).1, done, [])
    decreases live
  {
    hide Covering;
    if live != [] {
      assert live == [live[0]] + live[1..];
      CoverRelax(arcs, indegree, Lowered(indegree, live[0]), ready, done, live[0], live[1..]);
      RelaxCovers(arcs, live[1..], Lowered(indegree, live[0]), Grown(indegree, ready, live[0]), done);
    }
  }

  /** Nothing that was queued is lost, and without a cycle everything is queued. */
  lemma {:induction false} DrainCovers(doc: Document, indegree: map<Id, int>, ready: seq<Id>, order: seq<Id>)
    requires indegree.Keys == Ids(doc.nodes) && forall n :: n in ready ==> n in Ids(doc.nodes)
    requires Covering(ControlArcs(doc.edges, Ids(doc.nodes)), indegree, ready, Elements(order), [])
    ensures
      var all := Drain(doc, indegree, ready, order);
      && (forall n :: multiset(all)[n] >= multiset(order)[n] + multiset(ready)[n])
      && (Acyclic(ControlArcs(doc.edges, Ids(doc.nodes))) ==> Ids(doc.nodes) <= Elements(all))
    decreases |ready| + |Positive(indegree)|
  {
    hide Covering, Relax, Positive, Successors, Acyclic;
    var ids := Ids(doc.nodes);
    var arcs := ControlArcs(doc.edges, ids);
    if ready == [] {
      ArcsDeclared(doc);
      if Acyclic(arcs) {
        CoverEnds(arcs, indegree, Elements(order));
      }
    } else {
      var id, rest, next := ready[0], ready[1..], Relax(Successors(doc, ready[0]), indegree, ready[1..]);
      assert ready == [id] + rest && id in ready;
      CoverPop(arcs, indegree, ready, rest, Elements(order), id);
      ElementsSnoc(order, id);
      SuccessorsAreTargets(doc, id);
      RelaxCovers(arcs, Successors(doc, id), indegree, rest, Elements(order + [id]));
      RelaxQueues(Successors(doc, id), indegree, rest);
      DrainCovers(doc, next.0, next.1, order + [id]);
      forall n ensures multiset(order + [id])[n] + multiset(next.1)[n] >= multiset(order)[n] + multiset(ready)[n] {
        assert multiset(next.1)[n] >= multiset(rest)[n];
      }
    }
  }

  lemma SuccessorsAreTargets(doc: Document, id: Id)
    requires id in Ids(doc.nodes)
    ensures Successors(doc, id) == Targets(ControlArcs(doc.edges, Ids(doc.nodes)), id)
  {
    LiveTargetsOfNode(doc.edges, Ids(doc.nodes), id);
  }

  lemma {:induction false} RelaxQueues(live: seq<Id>, indegree: map<Id, int>, ready: seq<Id>)
    requires forall t :: t in live ==> t in indegree
    ensures ready <= Relax(live, indegree, ready).1
    ensures forall n :: multiset(Relax(live, indegree, ready).1)[n] >= multiset(ready)[n]
    ensures forall n :: n in Relax(live, indegree, ready).1 ==> n in ready || n in live
    decreases live
  {
    if live != [] {
      RelaxQueues(live[1..], Lowered(indegree, live[0]), Grown(indegree, ready, live[0]));
    }
  }

  /**
   * The other way a root declared twice goes wrong: without a cycle everything is scheduled, the root
   * twice, so the order is too long and the document is refused, with nothing to name.
   */
  lemma RepeatedRootIsRefused(doc: Document)
    requires DuplicateRoot(doc) && Acyclic(ControlArcs(doc.edges, Ids(doc.nodes)))
    ensures ScheduleOf(doc) == Cycle([])
  {
    hide Drain, Acyclic, Covering;
    var roots, ids := Roots(doc), Ids(doc.nodes);
    var order := Drain(doc, Incoming(doc), roots, []);
    RootsRepeat(doc, roots);
    NodeIdsCover(doc.nodes);
    KeptIsExact(NodeIds(doc.nodes), id => IsRoot(doc, id));
    RootsCover(doc);
    DrainCovers(doc, Incoming(doc), roots, []);
    if NoDuplicates(order) {
      RepeatedStaysRepeated(order, roots);
    }
    RepeatsAreLonger(order);
    SupersetSize(ids, Elements(order));
    KeptNothing(NodeIds(doc.nodes), id => id !in order);
  }

  lemma RootsCover(doc: Document)
    ensures Covering(ControlArcs(doc.edges, Ids(doc.nodes)), Incoming(doc), Roots(doc), Elements([]), [])
  {
    NodeIdsCover(doc.nodes);
    KeptIsExact(NodeIds(doc.nodes), id => IsRoot(doc, id));
    assert Elements([]) == {};
  }

  lemma SupersetSize<T>(a: set<T>, b: set<T>)
    requires a <= b
    ensures |a| <= |b|
  {
    if a != b {
      SubsetSize(a, b);
    }
  }

  /** The loop's invariant holds to the end of the queue. */
  lemma {:induction false} DrainRuns(doc: Document, indegree: map<Id, int>, ready: seq<Id>, order: seq<Id>, roots: seq<Id>)
    returns (after: map<Id, int>)
    requires indegree.Keys == Ids(doc.nodes) && LoopState(doc, indegree, ready, order, roots)
    ensures LoopState(doc, after, [], Drain(doc, indegree, ready, order), roots)
    decreases |ready| + |Positive(indegree)|
  {
    hide LoopState, Popped, Midway, Relax, Positive, Successors;
    after := indegree;
    if ready != [] {
      var id := ready[0];
      SchedulePop(doc, indegree, ready, order, roots);
      MidwayBegins(doc, indegree, ready[1..], order + [id], roots, id);
      RelaxRuns(doc, indegree, ready[1..], order + [id], roots, id, 0, Successors(doc, id));
      var next := Relax(Successors(doc, id), indegree, ready[1..]);
      after := DrainRuns(doc, next.0, next.1, order + [id], roots);
    }
  }

  lemma OrderIsDeclared(doc: Document, indegree: map<Id, int>, order: seq<Id>, roots: seq<Id>)
    requires LoopState(doc, indegree, [], order, roots)
    ensures forall n :: n in order ==> n in Ids(doc.nodes)
  {
  }

  /**
   * What the scheduler's answer is worth. An accepted order is a valid schedule exactly when no root id
   * is declared twice; under that condition acceptance means acyclicity, and a refusal names the nodes
   * behind a cycle. An acyclic document is accepted exactly under that condition, and refused with
   * nothing to name otherwise.
   */
  lemma ScheduleIsExact(doc: Document)
    ensures
      var arcs, r := ControlArcs(doc.edges, Ids(doc.nodes)), ScheduleOf(doc);
      && (r.Ok? ==> (ValidSchedule(doc, r.order) <==> !DuplicateRoot(doc)))
      && (r.Ok? ==> (Acyclic(arcs) <==> !DuplicateRoot(doc)))
      && (r.Ok? ==> forall n :: n in r.order ==> n in Ids(doc.nodes))
      && (!DuplicateRoot(doc) ==> (r.Ok? <==> Acyclic(arcs)))
      && (Acyclic(arcs) ==> (r.Ok? <==> !DuplicateRoot(doc)))
      && (Acyclic(arcs) && DuplicateRoot(doc) ==> r == Cycle([]))
      && (!DuplicateRoot(doc) && r.Cycle? ==> r.unscheduled == Kept(NodeIds(doc.nodes), id => BehindCycle(arcs, id)))
  {
    hide LoopState, DuplicateRoot, Acyclic, BehindCycle, ValidSchedule, Drain, Incoming, Roots, NodeIds, Kept;
    var arcs, roots := ControlArcs(doc.edges, Ids(doc.nodes)), Roots(doc);
    var order := Drain(doc, Incoming(doc), roots, []);
    ScheduleStart(doc, Incoming(doc), roots);
    var after := DrainRuns(doc, Incoming(doc), roots, [], roots);
    OrderIsDeclared(doc, after, order, roots);
    ScheduleComplete(doc, after, order, roots);
    if DuplicateRoot(doc) && Acyclic(arcs) {
      RepeatedRootIsRefused(doc);
    }
    if !DuplicateRoot(doc) {
      NodeIdsCover(doc.nodes);
      KeptCongruent(NodeIds(doc.nodes), id => id !in order, id => BehindCycle(arcs, id));
    }
  }

  /** Kahn's order over control edges. Data edges and edges with an undeclared end do not count. */
  method TopologicalOrder(doc: Document) returns (r: Schedule)
    ensures r == ScheduleOf(doc)
    ensures r.Ok? ==> (ValidSchedule(doc, r.order) <==> !DuplicateRoot(doc))
    ensures r.Ok? ==> (Acyclic(ControlArcs(doc.edges, Ids(doc.nodes))) <==> !DuplicateRoot(doc))
    ensures r.Ok? ==> forall n :: n in r.order ==> n in Ids(doc.nodes)
    ensures r.Ok? ==> Kept(NodeIds(doc.nodes), id => Unpreceded(doc, id)) <= r.order
    ensures Acyclic(ControlArcs(doc.edges, Ids(doc.nodes))) ==> (r.Ok? <==> !DuplicateRoot(doc))
    ensures Acyclic(ControlArcs(doc.edges, Ids(doc.nodes))) && DuplicateRoot(doc) ==> r == Cycle([])
    ensures !DuplicateRoot(doc) ==> (r.Ok? <==> Acyclic(ControlArcs(doc.edges, Ids(doc.nodes))))
    ensures !DuplicateRoot(doc) && r.Cycle? ==>
      r.unscheduled == Kept(NodeIds(doc.nodes), id => BehindCycle(ControlArcs(doc.edges, Ids(doc.nodes)), id))
  {
    hide Relax, Positive, Acyclic, DuplicateRoot, ValidSchedule, BehindCycle, Successors, Unpreceded;
    ScheduleIsExact(doc);
    if ScheduleOf(doc).Ok? {
      OrdersStartWithTheRoots(doc);
    }
    var indegree := CountIncoming(doc);
    assert indegree == Incoming(doc);
    var ready := ReadyNodes(doc, indegree);
    var scheduled: set<Id> := {};
    var order: seq<Id> := [];
    while ready != []
      invariant indegree.Keys == Ids(doc.nodes) && scheduled == Elements(order)
      invariant Drain(doc, indegree, ready, order) == Drain(doc, Incoming(doc), Roots(doc), [])
      decreases |ready| + |Positive(indegree)|
    {
      var current := ready[0];
      ElementsSnoc(order, current);
      ready := ready[1..];
      order := order + [current];
      scheduled := scheduled + {current};
      indegree, ready := RelaxEdges(doc, current, indegree, ready);
    }
    if |order| == |indegree| {
      return Ok(order);
    } else {
      var unscheduled := Unscheduled(doc, scheduled);
      KeptCongruent(NodeIds(doc.nodes), id => id !in scheduled, id => id !in order);
      return Cycle(unscheduled);
    }
  }

  /** A node declared twice, and after it one with an edge to itself. */
  ghost predicate TwiceAndLoop(doc: Document) {
    && |doc.nodes| == 3 && doc.nodes[0].id == doc.nodes[1].id != doc.nodes[2].id && |doc.edges| == 1
    && doc.edges[0].kind == Control && doc.edges[0].source == doc.edges[0].target == doc.nodes[2].id
  }

  lemma LoopIsNoRoot(doc: Document)
    requires TwiceAndLoop(doc)
    ensures
      var r, a := doc.nodes[0].id, doc.nodes[2].id;
      && Ids(doc.nodes) == {r, a} && ControlArcs(doc.edges, {r, a}) == [(a, a)]
      && IsRoot(doc, r) && !IsRoot(doc, a) && Successors(doc, r) == []
  {
    var r, a := doc.nodes[0].id, doc.nodes[2].id;
    assert doc.nodes[0] in doc.nodes && doc.nodes[2] in doc.nodes;
    assert Ids(doc.nodes) == {r, a};
    assert doc.edges == [doc.edges[0]] && doc.edges[1..] == [];
    assert ControlArcs(doc.edges, {r, a}) == [(a, a)];
    var arcs := [(a, a)];
    assert arcs[1..] == [];
    assert Pending(arcs, r, {}) == 0 && Pending(arcs, a, {}) == 1;
    assert EdgesFrom(doc.edges, r) == [];
  }

  /**
   * What goes wrong when a root is declared twice: its second scheduling stands in for a node that was
   * never scheduled, and a graph with a cycle is accepted.
   */
  lemma RepeatedRootHidesCycle(doc: Document)
    requires TwiceAndLoop(doc)
    ensures
      var r, a := doc.nodes[0].id, doc.nodes[2].id;
      && DuplicateRoot(doc) && ScheduleOf(doc) == Ok([r, r])
      && !Acyclic(ControlArcs(doc.edges, Ids(doc.nodes))) && a in Ids(doc.nodes)
  {
    LoopIsNoRoot(doc);
    var r, a := doc.nodes[0].id, doc.nodes[2].id;
    assert doc.nodes[0].id == doc.nodes[1].id;
    var keep := id => IsRoot(doc, id);
    assert NodeIds(doc.nodes) == [] + [r] + [r] + [a];
    KeptSnoc([] + [r] + [r], a, keep);
    KeptSnoc([] + [r], r, keep);
    KeptSnoc([], r, keep);
    assert Roots(doc) == [r, r];
    var counts := Incoming(doc);
    hide Incoming, Roots, IsRoot, Positive;
    assert [r, r][1..] == [r] && [r][1..] == [];
    assert Relax([], counts, [r]) == (counts, [r]) && Relax([], counts, []) == (counts, []);
    assert Drain(doc, counts, [], [r, r]) == [r, r];
    assert [r] + [r] == [r, r] && [] + [r] == [r];
    assert Drain(doc, counts, [r], [r]) == [r, r];
    assert Drain(doc, counts, [r, r], []) == [r, r];
    assert |{r, a}| == 2;
    LoopIsCyclic(a);
  }

  lemma LoopIsCyclic(a: Id)
    ensures !Acyclic([(a, a)])
  {
    assert IsWalkFromTo([(a, a)], [a, a], a, a);
    assert OnCycle([(a, a)], a);
  }

  lemma ArcsDeclared(doc: Document)
    ensures forall a :: a in ControlArcs(doc.edges, Ids(doc.nodes)) ==> a.0 in Ids(doc.nodes) && a.1 in Ids(doc.nodes)
  {
    ControlArcsExact(doc.edges, Ids(doc.nodes));
  }

  // ------------------------------------------------------------- the entry

  /** Control edges into a node, whatever they come from. */
  predicate HasIncoming(edges: seq<Edge>, id: Id) {
    exists e :: e in edges && e.kind == Control && e.target == id
  }

  /** `n` is the first of the nodes to be kept. */
  ghost predicate IsFirst(nodes: seq<Node>, n: Node, keep: Node -> bool) {
    exists i :: 0 <= i < |nodes| && nodes[i] == n && keep(n) && forall j :: 0 <= j < i ==> !keep(nodes[j])
  }

  function FirstWhere(nodes: seq<Node>, keep: Node -> bool): (r: Option<Node>)
    ensures r.Some? ==> IsFirst(nodes, r.value, keep)
    ensures r.None? <==> forall n :: n in nodes ==> !keep(n)
  {
    if nodes == [] then None
    else if keep(nodes[0]) then
      assert nodes[0] in nodes;
      Some(nodes[0])
    else
      var r := FirstWhere(nodes[1..], keep);
      assert r.Some? ==> IsFirst(nodes, r.value, keep) by {
        if r.Some? {
          var i :| 0 <= i < |nodes| - 1 && nodes[1..][i] == r.value && keep(r.value) &&
                   forall j :: 0 <= j < i ==> !keep(nodes[1..][j]);
          assert nodes[i + 1] == r.value;
          forall j | 0 <= j < i + 1 ensures !keep(nodes[j]) {
            assert j > 0 ==> nodes[j] == nodes[1..][j - 1];
          }
        }
      }
      r
  }

  predicate IsStart(n: Node) {
    n.nodeType == "core.Start"
  }

  /** The first `core.Start`, else the first node no control edge points at. */
  function EntryNode(doc: Document): (r: Option<Node>)
    ensures r.Some? ==> r.value.id in Ids(doc.nodes)
    ensures r.None? <==>
      forall n :: n in doc.nodes ==>
        n.nodeType != "core.Start" && exists e :: e in doc.edges && e.kind == Control && e.target == n.id
    ensures r.Some? && (exists n :: n in doc.nodes && n.nodeType == "core.Start") ==>
      IsFirst(doc.nodes, r.value, (n: Node) => n.nodeType == "core.Start")
    ensures r.Some? && (forall n :: n in doc.nodes ==> n.nodeType != "core.Start") ==>
      IsFirst(doc.nodes, r.value, (n: Node) => forall e :: e in doc.edges && e.kind == Control ==> e.target != n.id)
  {
    var start := FirstWhere(doc.nodes, IsStart);
    if start.Some? then start else FirstWhere(doc.nodes, (n: Node) => !HasIncoming(doc.edges, n.id))
  }
}
