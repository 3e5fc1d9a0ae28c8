// The editor's own view of a document as a graph, and its instant cycle check.
module EditorGraph {
  import opened Digraph
  import opened OrderedSets
  import opened Workflow
  import WorkflowGraph

  /** Edges with both ends declared; the cycle check counts data edges too, the layout does not. */
  function DeclaredArcs(edges: seq<Edge>, ids: set<Id>, dataToo: bool): seq<Arc> {
    if edges == [] then []
    else
      DeclaredArcs(edges[..|edges| - 1], ids, dataToo) +
      (if Counts(edges[|edges| - 1], ids, dataToo) then [(edges[|edges| - 1].source, edges[|edges| - 1].target)] else [])
  }

  predicate Counts(e: Edge, ids: set<Id>, dataToo: bool) {
    (dataToo || e.kind == Control) && e.source in ids && e.target in ids
  }

  lemma {:induction false} DeclaredArcsExact(edges: seq<Edge>, ids: set<Id>, dataToo: bool)
    ensures forall a :: a in DeclaredArcs(edges, ids, dataToo) <==>
      a.0 in ids && a.1 in ids && exists e :: e in edges && (dataToo || e.kind == Control) && e.source == a.0 && e.target == a.1
  {
    if edges != [] {
      var init, last := edges[..|edges| - 1], edges[|edges| - 1];
      DeclaredArcsExact(init, ids, dataToo);
      assert edges == init + [last];
    }
  }

  /** The arcs among the declared ids. */
  ghost function EditorArcs(all: seq<Id>, edges: seq<Edge>, dataToo: bool): seq<Arc> {
    DeclaredArcs(edges, Elements(all), dataToo)
  }

  /** Adjacency lists and in-degrees agree with a list of arcs. */
  ghost predicate Mapped(arcs: seq<Arc>, ids: set<Id>, adjacency: map<Id, seq<Id>>, indegree: map<Id, int>) {
    && adjacency.Keys == ids && indegree.Keys == ids
    && (forall n :: n in ids ==> adjacency[n] == Targets(arcs, n) && indegree[n] == Pending(arcs, n, {}))
  }

  lemma MappedGrows(arcs: seq<Arc>, ids: set<Id>, adjacency: map<Id, seq<Id>>, indegree: map<Id, int>, s: Id, t: Id)
    requires Mapped(arcs, ids, adjacency, indegree) && s in ids && t in ids
    ensures Mapped(arcs + [(s, t)], ids, adjacency[s := adjacency[s] + [t]], indegree[t := indegree[t] + 1])
  {
    var a, d := adjacency[s := adjacency[s] + [t]], indegree[t := indegree[t] + 1];
    forall n | n in ids ensures a[n] == Targets(arcs + [(s, t)], n) && d[n] == Pending(arcs + [(s, t)], n, {}) {
      TargetsSnoc(arcs, (s, t), n);
      PendingSnoc(arcs, (s, t), n);
    }
  }

  lemma MappedStart(ids: set<Id>, adjacency: map<Id, seq<Id>>, indegree: map<Id, int>)
    requires adjacency.Keys == ids && indegree.Keys == ids
    requires forall n :: n in ids ==> adjacency[n] == [] && indegree[n] == 0
    ensures Mapped([], ids, adjacency, indegree)
  {
  }

  /** Maps keep the ids in the order in which they were first declared. */
  method DeclareNodes(all: seq<Id>) returns (keys: seq<Id>, adjacency: map<Id, seq<Id>>, indegree: map<Id, int>)
    ensures keys == Distinct(all)
    ensures Mapped([], Elements(all), adjacency, indegree)
  {
    keys, adjacency, indegree := [], map[], map[];
    for i := 0 to |all|
      invariant keys == Distinct(all[..i])
      invariant adjacency.Keys == indegree.Keys == Elements(all[..i])
      invariant forall n :: n in indegree ==> indegree[n] == 0 && adjacency[n] == []
    {
      var id := all[i];
      assert all[..i + 1] == all[..i] + [id];
      DistinctSnoc(all[..i], id);
      ElementsSnoc(all[..i], id);
      if id !in indegree {
        keys := keys + [id];
      }
      indegree := indegree[id := 0];
      adjacency := adjacency[id := []];
    }
    assert all[..|all|] == all;
    MappedStart(Elements(all), adjacency, indegree);
  }

  method BuildMaps(all: seq<Id>, edges: seq<Edge>, dataToo: bool)
    returns (keys: seq<Id>, adjacency: map<Id, seq<Id>>, indegree: map<Id, int>)
    ensures keys == Distinct(all)
    ensures Mapped(EditorArcs(all, edges, dataToo), Elements(all), adjacency, indegree)
  {
    hide Distinct, Targets, Pending;
    keys, adjacency, indegree := DeclareNodes(all);
    ghost var ids := Elements(all);
    for i := 0 to |edges|
      invariant Mapped(DeclaredArcs(edges[..i], ids, dataToo), ids, adjacency, indegree)
    {
      var edge := edges[i];
      ghost var arcs := DeclaredArcs(edges[..i], ids, dataToo);
      DeclaredArcsSnoc(edges, i, ids, dataToo);
      if (dataToo || edge.kind == Control) && edge.source in indegree && edge.target in indegree {
        MappedGrows(arcs, ids, adjacency, indegree, edge.source, edge.target);
        adjacency := adjacency[edge.source := adjacency[edge.source] + [edge.target]];
        indegree := indegree[edge.target := indegree[edge.target] + 1];
      }
    }
    assert edges[..|edges|] == edges;
  }

  lemma DeclaredArcsSnoc(edges: seq<Edge>, i: nat, ids: set<Id>, dataToo: bool)
    requires i < |edges|
    ensures
      var before, after := DeclaredArcs(edges[..i], ids, dataToo), DeclaredArcs(edges[..i + 1], ids, dataToo);
      after == if Counts(edges[i], ids, dataToo) then before + [(edges[i].source, edges[i].target)] else before
  {
    assert edges[..i + 1][..i] == edges[..i];
  }

  method Roots(keys: seq<Id>, indegree: map<Id, int>) returns (ready: seq<Id>)
    requires NoDuplicates(keys) && Elements(keys) == indegree.Keys
    ensures NoDuplicates(ready)
    ensures forall n :: n in ready <==> n in indegree && indegree[n] == 0
  {
    ready := [];
    for i := 0 to |keys|
      invariant NoDuplicates(ready)
      invariant forall n :: n in ready <==> n in keys[..i] && n in indegree && indegree[n] == 0
    {
      assert keys[i] in Elements(keys);
      assert keys[i] !in keys[..i];
      if indegree[keys[i]] == 0 {
        ready := ready + [keys[i]];
      }
    }
    assert keys[..|keys|] == keys;
    assert forall n :: n in keys <==> n in Elements(keys);
  }

  lemma ArcsStayDeclared(all: seq<Id>, edges: seq<Edge>, dataToo: bool)
    ensures forall e :: e in EditorArcs(all, edges, dataToo) ==> e.0 in Elements(all) && e.1 in Elements(all)
  {
    DeclaredArcsExact(edges, Elements(all), dataToo);
  }

  /** Lower the in-degree of every target of `id`, pushing those that reach zero. */
  method Release(targets: seq<Id>, indegree: map<Id, int>, stack: seq<Id>, ghost arcs: seq<Arc>, ghost order: seq<Id>, ghost id: Id)
    returns (degrees: map<Id, int>, ready: seq<Id>)
    requires targets == Targets(arcs, id)
    requires Relaxing(indegree.Keys, arcs, indegree, stack, order, id, 0)
    ensures degrees.Keys == indegree.Keys && KahnState(indegree.Keys, arcs, degrees, ready, order)
  {
    hide Relaxing, KahnState;
    degrees, ready := indegree, stack;
    for j := 0 to |targets|
      invariant degrees.Keys == indegree.Keys
      invariant Relaxing(indegree.Keys, arcs, degrees, ready, order, id, j)
    {
      RelaxTarget(indegree.Keys, arcs, degrees, ready, order, id, j);
      KahnRelax(indegree.Keys, arcs, degrees, ready, order, id, j);
      var next := targets[j];
      var degree := degrees[next] - 1;
      degrees := degrees[next := degree];
      if degree == 0 {
        ready := ready + [next];
      }
    }
    KahnRelaxed(indegree.Keys, arcs, degrees, ready, order, id);
  }

  /** Kahn's elimination with a stack; what cannot be eliminated keeps a positive in-degree. */
  method Eliminate(ghost arcs: seq<Arc>, ghost ids: set<Id>, adjacency: map<Id, seq<Id>>, degrees: map<Id, int>,
                   roots: seq<Id>)
    returns (visited: nat, indegree: map<Id, int>)
    requires Mapped(arcs, ids, adjacency, degrees) && KahnState(ids, arcs, degrees, roots, [])
    ensures indegree.Keys == ids
    ensures visited == |ids| <==> Acyclic(arcs)
    ensures forall n :: n in ids ==> (indegree[n] > 0 <==> BehindCycle(arcs, n))
  {
    hide KahnState, Relaxing, Acyclic, BehindCycle, Targets, Pending;
    indegree, visited := degrees, 0;
    var ready := roots;
    ghost var order: seq<Id> := [];
    while ready != []
      invariant indegree.Keys == ids && Elements(order) <= ids
      invariant KahnState(ids, arcs, indegree, ready, order)
      invariant visited == |order|
      decreases ids - Elements(order)
    {
      var last := |ready| - 1;
      var id := ready[last];
      KahnPop(ids, arcs, indegree, ready, order, last);
      assert ready[..last] + ready[last + 1..] == ready[..last];
      ElementsSnoc(order, id);
      assert id !in Elements(order) && id in ids;
      order := order + [id];
      visited := visited + 1;
      indegree, ready := Release(adjacency[id], indegree, ready[..last], arcs, order, id);
    }
    KahnComplete(ids, arcs, indegree, order);
    KahnFinish(ids, arcs, indegree, order);
  }

  /** Declared ids on or behind a cycle of declared edges, in the order of their first declaration. */
  ghost function IdsBehindCycles(all: seq<Id>, edges: seq<Edge>): seq<Id> {
    Kept(Distinct(all), id => BehindCycle(EditorArcs(all, edges, true), id))
  }

  /**
   * Nothing exactly when the declared edges, control and data, form no cycle; otherwise exactly the ids
   * on or behind a cycle, each once, in the order of their first declaration.
   */
  method CycleProblems(doc: Document) returns (stuck: Option<seq<Id>>)
    ensures stuck.None? <==> Acyclic(EditorArcs(NodeIds(doc.nodes), doc.edges, true))
    ensures stuck.Some? ==> stuck.value == IdsBehindCycles(NodeIds(doc.nodes), doc.edges)
  {
    hide Acyclic, BehindCycle, Distinct, Kept, NodeIds;
    var all := NodeIds(doc.nodes);
    ghost var arcs := EditorArcs(all, doc.edges, true);
    var keys, adjacency, indegree := BuildMaps(all, doc.edges, true);
    DistinctIsExact(all);
    var ready := Roots(keys, indegree);
    ArcsStayDeclared(all, doc.edges, true);
    KahnStart(Elements(all), arcs, indegree, ready);
    var visited, degrees := Eliminate(arcs, indegree.Keys, adjacency, indegree, ready);
    if visited == |degrees.Keys| {
      return None;
    }
    var r := Stuck(keys, degrees);
    KeptCongruent(keys, id => id in degrees && degrees[id] > 0, id => BehindCycle(arcs, id));
    return Some(r);
  }

  method Stuck(keys: seq<Id>, indegree: map<Id, int>) returns (r: seq<Id>)
    ensures r == Kept(keys, id => id in indegree && indegree[id] > 0)
  {
    r := [];
    ghost var keep := (id: Id) => id in indegree && indegree[id] > 0;
    for i := 0 to |keys|
      invariant r == Kept(keys[..i], keep)
    {
      assert keys[..i + 1] == keys[..i] + [keys[i]];
      KeptSnoc(keys[..i], keys[i], keep);
      if keys[i] in indegree && indegree[keys[i]] > 0 {
        r := r + [keys[i]];
      }
    }
    assert keys[..|keys|] == keys;
  }

  /**
   * A document the editor finds no cycle in has none for the runtime either, and the runtime accepts it
   * exactly if no root is declared twice.
   */
  lemma CleanForTheEditorIsCleanForTheRuntime(doc: Document)
    requires Acyclic(EditorArcs(NodeIds(doc.nodes), doc.edges, true))
    ensures Acyclic(ControlArcs(doc.edges, Ids(doc.nodes)))
    ensures WorkflowGraph.ScheduleOf(doc).Ok? <==> !WorkflowGraph.DuplicateRoot(doc)
    ensures WorkflowGraph.DuplicateRoot(doc) ==> WorkflowGraph.ScheduleOf(doc) == WorkflowGraph.Cycle([])
  {
    hide WorkflowGraph.ScheduleOf, WorkflowGraph.DuplicateRoot, WorkflowGraph.ValidSchedule, Acyclic;
    var ids := Ids(doc.nodes);
    NodeIdsCover(doc.nodes);
    ControlArcsExact(doc.edges, ids);
    DeclaredArcsExact(doc.edges, ids, true);
    var all := DeclaredArcs(doc.edges, ids, true);
    forall a | a in ControlArcs(doc.edges, ids) ensures a in all {
      var e :| e in doc.edges && e.kind == Control && e.source == a.0 && e.target == a.1;
      assert Counts(e, ids, true) && (e.source, e.target) == a;
    }
    AcyclicAntitone(ControlArcs(doc.edges, ids), all);
    WorkflowGraph.ScheduleIsExact(doc);
  }

  /** A document with one id twice and nothing else: clean for the editor, refused by the runtime. */
  lemma TwinsAreRefused(doc: Document)
    requires |doc.nodes| == 2 && doc.nodes[0].id == doc.nodes[1].id && doc.edges == []
    ensures Acyclic(EditorArcs(NodeIds(doc.nodes), doc.edges, true))
    ensures WorkflowGraph.ScheduleOf(doc) == WorkflowGraph.Cycle([])
  {
    hide WorkflowGraph.ScheduleOf;
    AscendingIsAcyclic(EditorArcs(NodeIds(doc.nodes), doc.edges, true), map[]);
    assert WorkflowGraph.IsRoot(doc, doc.nodes[0].id);
    CleanForTheEditorIsCleanForTheRuntime(doc);
  }

  /** Two nodes, a control edge from one to the other and a data edge back. */
  predicate ThereAndBack(doc: Document) {
    && |doc.nodes| == 2 && doc.nodes[0].id != doc.nodes[1].id && |doc.edges| == 2
    && doc.edges[0].kind == Control && doc.edges[1].kind == Data
    && doc.edges[0].source == doc.edges[1].target == doc.nodes[0].id
    && doc.edges[0].target == doc.edges[1].source == doc.nodes[1].id
  }

  /** The converse fails: such a document is clean for the runtime and has a cycle for the editor. */
  lemma EditorIsStricter(doc: Document)
    requires ThereAndBack(doc)
    ensures Acyclic(ControlArcs(doc.edges, Ids(doc.nodes)))
    ensures !Acyclic(EditorArcs(NodeIds(doc.nodes), doc.edges, true))
  {
    var ids, a, b := Ids(doc.nodes), doc.nodes[0].id, doc.nodes[1].id;
    NodeIdsCover(doc.nodes);
    assert doc.nodes[0] in doc.nodes && doc.nodes[1] in doc.nodes;
    ControlArcsExact(doc.edges, ids);
    AscendingIsAcyclic(ControlArcs(doc.edges, ids), map[a := 0, b := 1]);
    DeclaredArcsExact(doc.edges, ids, true);
    var all := DeclaredArcs(doc.edges, ids, true);
    assert Counts(doc.edges[0], ids, true) && (doc.edges[0].source, doc.edges[0].target) == (a, b);
    assert Counts(doc.edges[1], ids, true) && (doc.edges[1].source, doc.edges[1].target) == (b, a);
    assert IsWalkFromTo(all, [a, b, a], a, a);
    assert OnCycle(all, a);
  }
}
