// The workflow document of the Rust crates: nodes, edges and variables, together with the
// indexed views the scheduler and the engine take of it.
module Workflow {
  import opened Digraph
  import Json

  datatype RetryBackoff = Fixed | Exponential
  datatype EdgeBranch = Always | Success | Failure
  datatype EdgeKind = Control | Data
  datatype Option<+T> = None | Some(value: T)

  datatype Node = Node(
    id: Id,
    nodeType: string,
    config: Json.Value,
    enabled: bool,
    condition: Option<string>,
    breakpoint: bool,
    delayBeforeMs: nat,
    delayAfterMs: nat,
    continueOnError: bool,
    timeoutMs: Option<nat>,
    retry: nat,
    retryDelayMs: nat,
    retryBackoff: RetryBackoff,
    retryMaxDelayMs: Option<nat>,
    resultVar: Option<string>,
    resultPort: Option<string>)

  datatype Edge = Edge(
    id: string,
    source: Id,
    target: Id,
    kind: EdgeKind,
    sourcePort: Option<string>,
    targetPort: Option<string>,
    branch: EdgeBranch,
    condition: Option<string>)

  datatype Variable = Variable(value: Json.Value, secret: bool)

  datatype Document = Document(id: string, nodes: seq<Node>, edges: seq<Edge>, variables: map<string, Variable>)

  function Ids(nodes: seq<Node>): set<Id> {
    set n | n in nodes :: n.id
  }

  /** Declared ids, in declaration order. */
  function NodeIds(nodes: seq<Node>): seq<Id> {
    seq(|nodes|, i requires 0 <= i < |nodes| => nodes[i].id)
  }

  lemma NodeIdsCover(nodes: seq<Node>)
    ensures Elements(NodeIds(nodes)) == Ids(nodes)
    ensures forall n :: n in NodeIds(nodes) <==> n in Ids(nodes)
  {
    forall n | n in Ids(nodes) ensures n in NodeIds(nodes) {
      var i :| 0 <= i < |nodes| && nodes[i].id == n;
      assert NodeIds(nodes)[i] == n;
    }
  }

  /** The first node declared under `id`; later duplicates are invisible. */
  function Lookup(nodes: seq<Node>, id: Id): (r: Option<Node>)
    ensures r.Some? <==> id in Ids(nodes)
    ensures r.Some? ==> r.value in nodes && r.value.id == id
  {
    if nodes == [] then None
    else if nodes[0].id == id then Some(nodes[0])
    else
      assert nodes == [nodes[0]] + nodes[1..];
      Lookup(nodes[1..], id)
  }

  function EdgesFrom(edges: seq<Edge>, id: Id): seq<Edge> {
    if edges == [] then []
    else (if edges[0].kind == Control && edges[0].source == id then [edges[0]] else []) + EdgesFrom(edges[1..], id)
  }

  function DataEdgesTo(edges: seq<Edge>, id: Id): seq<Edge> {
    if edges == [] then []
    else (if edges[0].kind == Data && edges[0].target == id then [edges[0]] else []) + DataEdgesTo(edges[1..], id)
  }

  lemma {:induction false} EdgesFromExact(edges: seq<Edge>, id: Id)
    ensures forall e :: e in EdgesFrom(edges, id) <==> e in edges && e.kind == Control && e.source == id
  {
    if edges != [] {
      EdgesFromExact(edges[1..], id);
      assert edges == [edges[0]] + edges[1..];
    }
  }

  /** The control arcs whose two endpoints are declared nodes. */
  function ControlArcs(edges: seq<Edge>, ids: set<Id>): seq<Arc> {
    if edges == [] then []
    else
      (if edges[0].kind == Control && edges[0].source in ids && edges[0].target in ids
       then [(edges[0].source, edges[0].target)] else [])
      + ControlArcs(edges[1..], ids)
  }

  lemma {:induction false} ControlArcsExact(edges: seq<Edge>, ids: set<Id>)
    ensures forall a :: a in ControlArcs(edges, ids) <==>
      a.0 in ids && a.1 in ids && exists e :: e in edges && e.kind == Control && e.source == a.0 && e.target == a.1
  {
    if edges != [] {
      ControlArcsExact(edges[1..], ids);
      assert edges == [edges[0]] + edges[1..];
    }
  }
}
