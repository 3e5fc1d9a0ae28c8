// The canvas: path selection, connecting ports, deleting the selection, and the layout button.
module Canvas {
  import opened Digraph
  import opened FreshIds
  import opened Layout
  import opened LevelLaws
  import opened Levels
  import opened OrderedSets
  import opened Workflow
  import EditorGraph
  import Groups
  import Json

  // -------------------------------------------------------- path selection

  function StepOf(e: Edge, forward: bool): Arc {
    if forward then (e.source, e.target) else (e.target, e.source)
  }

  /** Control edges seen from one end; an edge whose far end is the empty id leads nowhere. */
  function Steps(edges: seq<Edge>, forward: bool): seq<Arc> {
    if edges == [] then []
    else
      var e := edges[|edges| - 1];
      Steps(edges[..|edges| - 1], forward) +
      (if e.kind == Control && StepOf(e, forward).1 != "" then [StepOf(e, forward)] else [])
  }

  ghost predicate IsStep(edges: seq<Edge>, forward: bool, a: Arc) {
    exists e :: e in edges && e.kind == Control && a == StepOf(e, forward)
  }

  lemma {:induction false} StepsExact(edges: seq<Edge>, forward: bool)
    ensures forall a :: a in Steps(edges, forward) <==> (a.1 != "" && IsStep(edges, forward, a))
  {
    if edges != [] {
      StepsExact(edges[..|edges| - 1], forward);
      assert edges == edges[..|edges| - 1] + [edges[|edges| - 1]];
    }
  }

  function EndPoints(arcs: seq<Arc>): set<Id> {
    set a | a in arcs :: a.1
  }

  /** The set being grown: all of it reachable, and everything before the queue fully expanded. */
  ghost predicate Searching(arcs: seq<Arc>, start: Id, result: seq<Id>, done: nat) {
    && done <= |result| && NoDuplicates(result) && start in result
    && (forall n :: n in result ==> n == start || n in EndPoints(arcs))
    && (forall n :: n in result ==> Reaches(arcs, start, n))
    && (forall a :: a in arcs && a.0 in result[..done] ==> a.1 in result)
  }

  lemma SearchGrows(arcs: seq<Arc>, start: Id, result: seq<Id>, done: nat, a: Arc)
    requires Searching(arcs, start, result, done) && a in arcs && a.0 in result && a.1 !in result
    ensures Searching(arcs, start, result + [a.1], done)
  {
    var grown := result + [a.1];
    assert grown[..done] == result[..done];
    ReachesStep(arcs, start, a.0, a.1);
    assert NoDuplicates(grown);
  }

  lemma SearchBounded(arcs: seq<Arc>, start: Id, result: seq<Id>, done: nat)
    requires Searching(arcs, start, result, done)
    ensures |result| <= |EndPoints(arcs) + {start}|
  {
    NoDuplicatesBounded(result, EndPoints(arcs) + {start});
  }

  lemma SearchComplete(arcs: seq<Arc>, start: Id, result: seq<Id>)
    requires Searching(arcs, start, result, |result|)
    ensures forall n :: n in result <==> Reaches(arcs, start, n)
  {
    assert result[..|result|] == result;
    forall n | Reaches(arcs, start, n) ensures n in result {
      var p :| IsWalkFromTo(arcs, p, start, n);
      ClosedSetCatchesWalk(arcs, Elements(result), p);
    }
  }

  /** Every step from `current` along the first `i` edges has been taken. */
  ghost predicate Taken(edges: seq<Edge>, i: nat, forward: bool, current: Id, result: seq<Id>)
    requires i <= |edges|
  {
    forall a :: a in Steps(edges[..i], forward) && a.0 == current ==> a.1 in result
  }

  lemma TakeStep(edges: seq<Edge>, i: nat, forward: bool, current: Id, before: seq<Id>, after: seq<Id>)
    requires i < |edges| && Taken(edges, i, forward, current, before)
    requires forall n :: n in before ==> n in after
    requires edges[i].kind == Control && StepOf(edges[i], forward).0 == current && StepOf(edges[i], forward).1 != "" ==>
      StepOf(edges[i], forward).1 in after
    ensures Taken(edges, i + 1, forward, current, after)
  {
    assert edges[..i + 1][..i] == edges[..i];
  }

  lemma EdgeIsStep(edges: seq<Edge>, i: nat, forward: bool)
    requires i < |edges| && edges[i].kind == Control && StepOf(edges[i], forward).1 != ""
    ensures StepOf(edges[i], forward) in Steps(edges, forward)
  {
    StepsExact(edges, forward);
    assert edges[i] in edges;
    assert IsStep(edges, forward, StepOf(edges[i], forward));
  }

  lemma AllTakenIs(edges: seq<Edge>, forward: bool, current: Id, result: seq<Id>)
    requires Taken(edges, |edges|, forward, current, result)
    ensures forall a :: a in Steps(edges, forward) && a.0 == current ==> a.1 in result
  {
    assert edges[..|edges|] == edges;
  }

  /** One node of the queue: everything one control edge away joins the result and the queue. */
  method Expand(edges: seq<Edge>, forward: bool, current: Id, found: seq<Id>, waiting: seq<Id>, ghost start: Id, ghost done: nat)
    returns (result: seq<Id>, queue: seq<Id>)
    requires Searching(Steps(edges, forward), start, found, done)
    requires done < |found| && found[done] == current && waiting == found[done + 1..]
    ensures Searching(Steps(edges, forward), start, result, done + 1)
    ensures done + 1 <= |result| && queue == result[done + 1..]
  {
    hide Searching, Steps, Taken, Reaches;
    ghost var arcs := Steps(edges, forward);
    result, queue := found, waiting;
    NothingTaken(edges, forward, current, found);
    for i := 0 to |edges|
      invariant Searching(arcs, start, result, done)
      invariant done < |result| && result[done] == current && queue == result[done + 1..]
      invariant Taken(edges, i, forward, current, result)
    {
      var edge := edges[i];
      ghost var before := result;
      var next := if forward then edge.target else edge.source;
      if edge.kind == Control && (if forward then edge.source else edge.target) == current && next != "" && next !in result {
        EdgeIsStep(edges, i, forward);
        SearchGrows(arcs, start, result, done, StepOf(edge, forward));
        result := result + [next];
        queue := queue + [next];
      }
      TakeStep(edges, i, forward, current, before, result);
    }
    AllTakenIs(edges, forward, current, result);
    SearchExpanded(arcs, start, result, done);
  }

  lemma NothingTaken(edges: seq<Edge>, forward: bool, current: Id, result: seq<Id>)
    ensures Taken(edges, 0, forward, current, result)
  {
  }

  lemma SearchExpanded(arcs: seq<Arc>, start: Id, result: seq<Id>, done: nat)
    requires Searching(arcs, start, result, done) && done < |result|
    requires forall a :: a in arcs && a.0 == result[done] ==> a.1 in result
    ensures Searching(arcs, start, result, done + 1)
  {
    assert result[..done + 1] == result[..done] + [result[done]];
  }

  lemma SearchStarts(arcs: seq<Arc>, start: Id)
    ensures Searching(arcs, start, [start], 0)
  {
    ReachesSelf(arcs, start);
  }

  /** Breadth first: exactly the ids some walk leads to, on any graph, cycles included. */
  method Reachable(edges: seq<Edge>, start: Id, forward: bool) returns (result: seq<Id>)
    ensures NoDuplicates(result)
    ensures forall n :: n in result <==> Reaches(Steps(edges, forward), start, n)
  {
    hide Searching;
    ghost var arcs := Steps(edges, forward);
    result := [start];
    var queue := [start];
    ghost var done := 0;
    SearchStarts(arcs, start);
    while queue != []
      invariant Searching(arcs, start, result, done)
      invariant done <= |result| && queue == result[done..]
      decreases |EndPoints(arcs) + {start}| - done
    {
      SearchBounded(arcs, start, result, done);
      var current := queue[0];
      result, queue := Expand(edges, forward, current, result, queue[1..], start, done);
      done := done + 1;
      SearchBounded(arcs, start, result, done);
    }
    SearchDistinct(arcs, start, result, done);
    SearchComplete(arcs, start, result);
  }

  lemma SearchDistinct(arcs: seq<Arc>, start: Id, result: seq<Id>, done: nat)
    requires Searching(arcs, start, result, done)
    ensures NoDuplicates(result)
  {
  }

  /** Control edges between non-empty ids, declared or not. */
  function SolidSteps(edges: seq<Edge>): seq<Arc> {
    Kept(Steps(edges, true), (a: Arc) => a.0 != "")
  }

  lemma SolidStepsExact(edges: seq<Edge>)
    ensures forall a :: a in SolidSteps(edges) <==> (a.0 != "" && a.1 != "" && IsStep(edges, true, a))
  {
    StepsExact(edges, true);
    KeptIsExact(Steps(edges, true), (a: Arc) => a.0 != "");
  }

  lemma StepsReverse(edges: seq<Edge>, a: Arc)
    ensures IsStep(edges, false, (a.1, a.0)) <==> IsStep(edges, true, a)
  {
    if IsStep(edges, true, a) {
      var e :| e in edges && e.kind == Control && a == StepOf(e, true);
      assert (a.1, a.0) == StepOf(e, false);
    }
    if IsStep(edges, false, (a.1, a.0)) {
      var e :| e in edges && e.kind == Control && (a.1, a.0) == StepOf(e, false);
      assert a == StepOf(e, true);
    }
  }

  lemma ForwardIsSolid(edges: seq<Edge>, start: Id, n: Id)
    requires start != ""
    ensures Reaches(Steps(edges, true), start, n) <==> Reaches(SolidSteps(edges), start, n)
  {
    var all, solid := Steps(edges, true), SolidSteps(edges);
    StepsExact(edges, true);
    SolidStepsExact(edges);
    if Reaches(solid, start, n) {
      ReachesMonotone(solid, all, start, n);
    }
    if Reaches(all, start, n) {
      var p :| IsWalkFromTo(all, p, start, n);
      forall i | 0 <= i < |p| - 1 ensures (p[i], p[i + 1]) in solid {
        assert (p[i], p[i + 1]) in all;
        assert i > 0 ==> (p[i - 1], p[i - 1 + 1]) in all;
      }
      assert IsWalkFromTo(solid, p, start, n);
    }
  }

  function Reversed(p: seq<Id>): seq<Id> {
    seq(|p|, i requires 0 <= i < |p| => p[|p| - 1 - i])
  }

  lemma ReverseIsSolid(edges: seq<Edge>, target: Id, n: Id)
    requires target != ""
    ensures Reaches(Steps(edges, false), target, n) <==> Reaches(SolidSteps(edges), n, target)
  {
    if Reaches(Steps(edges, false), target, n) {
      BackwardToForward(edges, target, n);
    }
    if Reaches(SolidSteps(edges), n, target) {
      ForwardToBackward(edges, target, n);
    }
  }

  lemma BackwardToForward(edges: seq<Edge>, target: Id, n: Id)
    requires target != "" && Reaches(Steps(edges, false), target, n)
    ensures Reaches(SolidSteps(edges), n, target)
  {
    var back, solid := Steps(edges, false), SolidSteps(edges);
    StepsExact(edges, false);
    SolidStepsExact(edges);
    var p :| IsWalkFromTo(back, p, target, n);
    var q := Reversed(p);
    forall i | 0 <= i < |q| - 1 ensures (q[i], q[i + 1]) in solid {
      var k := |p| - 2 - i;
      assert (p[k], p[k + 1]) in back;
      assert k > 0 ==> (p[k - 1], p[k - 1 + 1]) in back;
      StepsReverse(edges, (p[k + 1], p[k]));
    }
    assert IsWalkFromTo(solid, q, n, target);
  }

  lemma ForwardToBackward(edges: seq<Edge>, target: Id, n: Id)
    requires Reaches(SolidSteps(edges), n, target)
    ensures Reaches(Steps(edges, false), target, n)
  {
    var back, solid := Steps(edges, false), SolidSteps(edges);
    StepsExact(edges, false);
    SolidStepsExact(edges);
    var p :| IsWalkFromTo(solid, p, n, target);
    var q := Reversed(p);
    forall i | 0 <= i < |q| - 1 ensures (q[i], q[i + 1]) in back {
      var k := |p| - 2 - i;
      assert (p[k], p[k + 1]) in solid;
      StepsReverse(edges, (p[k], p[k + 1]));
    }
    assert IsWalkFromTo(back, q, target, n);
  }

  /** Some walk from `a` to `b` passes through `n`. */
  ghost predicate OnSomeWalk(arcs: seq<Arc>, a: Id, b: Id, n: Id) {
    exists p :: IsWalkFromTo(arcs, p, a, b) && n in p
  }

  lemma WalksThrough(arcs: seq<Arc>, a: Id, b: Id, n: Id)
    ensures OnSomeWalk(arcs, a, b, n) <==> Reaches(arcs, a, n) && Reaches(arcs, n, b)
  {
    if OnSomeWalk(arcs, a, b, n) {
      var p :| IsWalkFromTo(arcs, p, a, b) && n in p;
      var k :| 0 <= k < |p| && p[k] == n;
      assert IsWalkFromTo(arcs, p[..k + 1], a, n) by {
        SubWalk(arcs, p, 0, k);
        assert p[0..k + 1] == p[..k + 1];
      }
      assert IsWalkFromTo(arcs, p[k..], n, b) by {
        SubWalk(arcs, p, k, |p| - 1);
        assert p[k..|p| - 1 + 1] == p[k..];
      }
    }
    if Reaches(arcs, a, n) && Reaches(arcs, n, b) {
      var p :| IsWalkFromTo(arcs, p, a, n);
      var q :| IsWalkFromTo(arcs, q, n, b);
      assert (p + q[1..])[|p| - 1] == n;
      assert IsWalkFromTo(arcs, p + q[1..], a, b);
    }
  }

  /** Forward from the anchor and backward from the target, intersected: the nodes on the walks between. */
  lemma ClosuresMeetOnWalks(edges: seq<Edge>, anchor: Id, target: Id, n: Id)
    requires anchor != "" && target != ""
    ensures Reaches(Steps(edges, true), anchor, n) && Reaches(Steps(edges, false), target, n) <==>
      OnSomeWalk(SolidSteps(edges), anchor, target, n)
  {
    ForwardIsSolid(edges, anchor, n);
    ReverseIsSolid(edges, target, n);
    WalksThrough(SolidSteps(edges), anchor, target, n);
  }

  lemma NothingReachesTheEmptyId(edges: seq<Edge>, anchor: Id)
    requires anchor != ""
    ensures !Reaches(Steps(edges, true), anchor, "")
  {
    StepsExact(edges, true);
    forall p | IsWalk(Steps(edges, true), p) && p[0] == anchor ensures p[|p| - 1] != "" {
      if |p| > 1 {
        assert (p[|p| - 2], p[|p| - 2 + 1]) in Steps(edges, true);
      }
    }
  }

  // ------------------------------------------------------------ connections

  /** What two edges would have in common to be the same connection. */
  predicate SameConnection(e: Edge, f: Edge) {
    && e.kind == f.kind && e.source == f.source && e.target == f.target
    && (if e.kind == Data then PortOr(e.sourcePort, "out") == PortOr(f.sourcePort, "out") &&
                               PortOr(e.targetPort, "in") == PortOr(f.targetPort, "in")
        else e.branch == f.branch)
  }

  function PortOr(port: Option<string>, fallback: string): string {
    if port.Some? then port.value else fallback
  }

  predicate ValueTypesCompatible(source: string, target: string) {
    || source == target || source == "any" || target == "any"
    || (source == "string" && target == "path") || (source == "path" && target == "string")
  }

  function BranchOf(sourcePort: string): EdgeBranch {
    if sourcePort == "success" then EdgeBranch.Success
    else if sourcePort == "failure" then EdgeBranch.Failure
    else Always
  }

  /** Whether the pair of ports counts as connected already; a plain control port clashes with every branch. */
  predicate Clashes(e: Edge, source: Id, target: Id, sourcePort: string, targetPort: string, kind: EdgeKind) {
    && e.kind == kind && e.source == source && e.target == target
    && (if kind == Data then PortOr(e.sourcePort, "out") == sourcePort && PortOr(e.targetPort, "in") == targetPort
        else BranchOf(sourcePort) == Always || e.branch == BranchOf(sourcePort))
  }

  lemma PortsTellTheBranch()
    ensures BranchOf("success") == EdgeBranch.Success && BranchOf("failure") == EdgeBranch.Failure
    ensures forall port :: port != "success" && port != "failure" ==> BranchOf(port) == Always
  {
    assert "success"[0] == 's' && "failure"[0] == 'f';
  }

  method EdgeExists(edges: seq<Edge>, source: Id, target: Id, sourcePort: string, targetPort: string, kind: EdgeKind)
    returns (found: bool)
    ensures found <==> exists e :: e in edges && Clashes(e, source, target, sourcePort, targetPort, kind)
    ensures kind == Data ==>
      (found <==> exists e :: e in edges && e.kind == Data && e.source == source && e.target == target &&
                              (e.sourcePort == Some(sourcePort) || (e.sourcePort.None? && sourcePort == "out")) &&
                              (e.targetPort == Some(targetPort) || (e.targetPort.None? && targetPort == "in")))
    ensures kind == Control && sourcePort != "success" && sourcePort != "failure" ==>
      (found <==> exists e :: e in edges && e.kind == Control && e.source == source && e.target == target)
    ensures kind == Control && (sourcePort == "success" || sourcePort == "failure") ==>
      (found <==> exists e :: e in edges && e.kind == Control && e.source == source && e.target == target &&
                              e.branch == if sourcePort == "success" then EdgeBranch.Success else EdgeBranch.Failure)
  {
    PortsTellTheBranch();
    for i := 0 to |edges|
      invariant forall j :: 0 <= j < i ==> !Clashes(edges[j], source, target, sourcePort, targetPort, kind)
    {
      if Clashes(edges[i], source, target, sourcePort, targetPort, kind) {
        return true;
      }
    }
    return false;
  }

  function EdgeIds(edges: seq<Edge>): seq<string> {
    seq(|edges|, i requires 0 <= i < |edges| => edges[i].id)
  }

  /** Unique ids, no self-loops, and no connection made twice. */
  ghost predicate WellConnected(edges: seq<Edge>) {
    && NoDuplicates(EdgeIds(edges))
    && (forall e :: e in edges ==> e.source != e.target)
    && (forall i, j :: 0 <= i < j < |edges| ==> !SameConnection(edges[i], edges[j]))
  }

  /** The edge a successful connection adds. */
  function NewEdge(id: string, source: Id, target: Id, sourcePort: string, targetPort: string, kind: EdgeKind): Edge {
    if kind == Data then Edge(id, source, target, Data, Some(sourcePort), Some(targetPort), Always, None)
    else Edge(id, source, target, Control, None, None, BranchOf(sourcePort), None)
  }

  /** Adding an edge with a fresh id where nothing clashes keeps a document well connected. */
  lemma ConnectingKeepsWellConnected(edges: seq<Edge>, id: string, source: Id, target: Id, sourcePort: string,
                                     targetPort: string, kind: EdgeKind)
    requires WellConnected(edges) && id !in EdgeIds(edges) && source != target
    requires forall e :: e in edges ==> !Clashes(e, source, target, sourcePort, targetPort, kind)
    ensures WellConnected(edges + [NewEdge(id, source, target, sourcePort, targetPort, kind)])
  {
    var edge := NewEdge(id, source, target, sourcePort, targetPort, kind);
    var after := edges + [edge];
    forall i, j | 0 <= i < j < |after| ensures !SameConnection(after[i], after[j]) && EdgeIds(after)[i] != EdgeIds(after)[j] {
      if j < |edges| {
        assert EdgeIds(edges)[i] != EdgeIds(edges)[j];
      } else {
        assert EdgeIds(edges)[i] == after[i].id;
        assert !Clashes(edges[i], source, target, sourcePort, targetPort, kind);
      }
    }
  }

  /** Dropping edges keeps it well connected too. */
  lemma {:induction false} DroppingKeepsWellConnected(edges: seq<Edge>, keep: Edge -> bool)
    requires WellConnected(edges)
    ensures WellConnected(Kept(edges, keep))
  {
    if edges != [] {
      var init, last := edges[..|edges| - 1], edges[|edges| - 1];
      InitWellConnected(edges);
      DroppingKeepsWellConnected(init, keep);
      KeptIsExact(init, keep);
      var before := Kept(init, keep);
      assert Kept(edges, keep) == before + (if keep(last) then [last] else []);
      forall i | 0 <= i < |before| ensures before[i].id != last.id && !SameConnection(before[i], last) {
        assert before[i] in init;
        var k :| 0 <= k < |init| && init[k] == before[i];
        assert EdgeIds(edges)[k] != EdgeIds(edges)[|edges| - 1];
        assert !SameConnection(edges[k], edges[|edges| - 1]);
      }
      OneMore(before, last, Kept(edges, keep));
    }
  }

  lemma InitWellConnected(edges: seq<Edge>)
    requires WellConnected(edges) && edges != []
    ensures WellConnected(edges[..|edges| - 1])
  {
    var init := edges[..|edges| - 1];
    forall i, j | 0 <= i < j < |init| ensures EdgeIds(init)[i] != EdgeIds(init)[j] && !SameConnection(init[i], init[j]) {
      assert EdgeIds(edges)[i] != EdgeIds(edges)[j];
      assert !SameConnection(edges[i], edges[j]);
    }
  }

  lemma OneMore(before: seq<Edge>, last: Edge, after: seq<Edge>)
    requires WellConnected(before) && last.source != last.target
    requires after == before || after == before + [last]
    requires forall i :: 0 <= i < |before| ==> before[i].id != last.id && !SameConnection(before[i], last)
    ensures WellConnected(after)
  {
    forall i, j | 0 <= i < j < |after| ensures EdgeIds(after)[i] != EdgeIds(after)[j] && !SameConnection(after[i], after[j]) {
      if j < |before| {
        assert EdgeIds(before)[i] != EdgeIds(before)[j];
      }
    }
  }

  /** The edge is the connection asked for: named ports on a data edge, the branch its port names on a control edge. */
  ghost predicate IsConnection(e: Edge, source: Id, target: Id, sourcePort: string, targetPort: string, kind: EdgeKind) {
    && e.kind == kind && e.source == source && e.target == target && e.condition.None?
    && (kind == Data ==> e.sourcePort == Some(sourcePort) && e.targetPort == Some(targetPort) && e.branch == Always)
    && (kind == Control ==>
          && e.sourcePort.None? && e.targetPort.None?
          && (sourcePort == "success" ==> e.branch == EdgeBranch.Success)
          && (sourcePort == "failure" ==> e.branch == EdgeBranch.Failure)
          && (sourcePort != "success" && sourcePort != "failure" ==> e.branch == Always))
  }

  lemma NewEdgesConnect(id: string, source: Id, target: Id, sourcePort: string, targetPort: string, kind: EdgeKind)
    ensures
      var e := NewEdge(id, source, target, sourcePort, targetPort, kind);
      e.id == id && IsConnection(e, source, target, sourcePort, targetPort, kind)
  {
    PortsTellTheBranch();
  }

  datatype Port = Port(name: string, valueType: string)

  datatype Ports = Ports(outputs: seq<Port>, inputs: seq<Port>)

  /** The port that counts for a name: the first with it. */
  ghost predicate PortAt(ports: seq<Port>, name: string, i: nat) {
    i < |ports| && ports[i].name == name && forall j :: 0 <= j < i ==> ports[j].name != name
  }

  lemma {:induction false} FindsTheFirst(ports: seq<Port>, name: string, i: nat)
    requires PortAt(ports, name, i)
    ensures FindPort(ports, name) == Some(ports[i])
  {
    if i > 0 {
      FindsTheFirst(ports[1..], name, i - 1);
    }
  }

  lemma {:induction false} FoundPort(ports: seq<Port>, name: string) returns (i: nat)
    requires FindPort(ports, name).Some?
    ensures PortAt(ports, name, i)
  {
    i := 0;
    if ports[0].name != name {
      i := FoundPort(ports[1..], name);
      i := i + 1;
    }
  }

  lemma PortIsThere(ports: seq<Port>, name: string, i: nat)
    requires PortAt(ports, name, i)
    ensures i < |ports|
  {
  }

  /** Types fit if they are equal, if one of them is `any`, or if they are text and a path, either way round. */
  lemma TypesThatFit(source: string, target: string)
    ensures ValueTypesCompatible(source, target) <==>
      source == target || "any" in {source, target} || {source, target} == {"string", "path"}
  {
    assert "string"[0] == 's' && "path"[0] == 'p';
  }

  function FindPort(ports: seq<Port>, name: string): Option<Port> {
    if ports == [] then None else if ports[0].name == name then Some(ports[0]) else FindPort(ports[1..], name)
  }

  datatype Verdict = Connected | SelfConnection | DuplicateConnection | IncompatiblePorts

  // ------------------------------------------------------------ the canvas

  class Editor {
    var nodes: seq<CanvasNode>
    var edges: seq<Edge>
    var extensions: Option<Json.Scope>
    var selected: seq<Id>
    var primary: Option<Id>
    var selectedEdge: Option<string>
    const mint: IdMint
    const catalogue: map<string, Ports>

    constructor (nodes: seq<CanvasNode>, edges: seq<Edge>, extensions: Option<Json.Scope>, catalogue: map<string, Ports>)
      ensures this.nodes == nodes && this.edges == edges && this.extensions == extensions && this.catalogue == catalogue
      ensures selected == [] && primary == None && selectedEdge == None && fresh(mint)
    {
      this.nodes, this.edges, this.extensions, this.catalogue := nodes, edges, extensions, catalogue;
      selected, primary, selectedEdge := [], None, None;
      mint := new IdMint();
    }

    /** The primary node is the one asked for if it is among the ids, else the first of them. */
    method SetSelection(ids: seq<Id>, first: Option<Id>)
      modifies this`selected, this`primary, this`selectedEdge
      ensures selected == Distinct(ids) && selectedEdge == None
      ensures first.Some? && first.value != "" && first.value in ids ==> primary == first
      ensures !(first.Some? && first.value != "" && first.value in ids) ==>
        primary == if ids != [] then Some(ids[0]) else None
    {
      DistinctIsExact(ids);
      if ids != [] {
        DistinctKeepsFirst(ids);
      }
      selected := Distinct(ids);
      primary := if first.Some? && first.value != "" && first.value in selected then first
                 else if selected != [] then Some(selected[0]) else None;
      selectedEdge := None;
    }

    /** Nothing is anchored: no node, the empty id, or the target itself. */
    predicate Unanchored(target: Id)
      reads this`primary
    {
      primary.None? || primary.value == "" || primary.value == target
    }

    /**
     * Shift-selection: the nodes on the directed control walks from the anchor to the target, whichever
     * way the graph winds; if there is no walk, nothing changes.
     */
    method SelectPathTo(target: Id)
      modifies this`selected, this`primary, this`selectedEdge
      ensures old(Unanchored(target)) ==> selected == [target] && selectedEdge == None
      ensures old(Unanchored(target)) && target != "" ==> primary == Some(target)
      ensures !old(Unanchored(target)) && Reaches(SolidSteps(edges), old(primary).value, target) ==>
        && NoDuplicates(selected) && primary == Some(target) && selectedEdge == None
        && forall n :: n in selected <==> OnSomeWalk(SolidSteps(edges), old(primary).value, target, n)
      ensures !old(Unanchored(target)) && !Reaches(SolidSteps(edges), old(primary).value, target) ==>
        selected == old(selected) && primary == old(primary) && selectedEdge == old(selectedEdge)
    {
      hide Steps, SolidSteps, Reaches, OnSomeWalk;
      if primary.None? || primary.value == "" || primary.value == target {
        assert Distinct([target]) == [target] by {
          DistinctOfNoDuplicates([target]);
        }
        SetSelection([target], Some(target));
        return;
      }
      var anchor := primary.value;
      var forward := Reachable(edges, anchor, true);
      var reverse := Reachable(edges, target, false);
      var ids := Kept(forward, id => id in reverse);
      KeptIsExact(forward, id => id in reverse);
      if anchor !in ids {
        ids := ids + [anchor];
      }
      if target !in ids {
        ids := ids + [target];
      }
      ForwardIsSolid(edges, anchor, target);
      if target !in forward {
        return;
      }
      NothingReachesTheEmptyId(edges, anchor);
      assert target != "";
      forall n ensures n in ids <==> OnSomeWalk(SolidSteps(edges), anchor, target, n) {
        ClosuresMeetOnWalks(edges, anchor, target, n);
        EndsAreOnWalks(SolidSteps(edges), anchor, target);
      }
      DistinctIsExact(ids);
      SetSelection(ids, Some(target));
    }

    /** The type of the first port with this name on the first node with this id, where both are known. */
    function OutputType(id: Id, port: string): Option<string>
      reads this`nodes
    {
      if id in CanvasIds(nodes) && nodes[FindNode(nodes, id)].nodeType in catalogue then
        var found := FindPort(catalogue[nodes[FindNode(nodes, id)].nodeType].outputs, port);
        if found.Some? then Some(found.value.valueType) else None
      else None
    }

    function InputType(id: Id, port: string): Option<string>
      reads this`nodes
    {
      if id in CanvasIds(nodes) && nodes[FindNode(nodes, id)].nodeType in catalogue then
        var found := FindPort(catalogue[nodes[FindNode(nodes, id)].nodeType].inputs, port);
        if found.Some? then Some(found.value.valueType) else None
      else None
    }

    predicate Mismatch(source: Id, target: Id, sourcePort: string, targetPort: string)
      reads this`nodes
    {
      var output, input := OutputType(source, sourcePort), InputType(target, targetPort);
      output.Some? && input.Some? && !ValueTypesCompatible(output.value, input.value)
    }

    /**
     * The first node under each id, of a known type; the first of its ports under the name asked for,
     * among the outputs on one side and the inputs on the other; and their types do not fit.
     */
    ghost predicate TypesClash(source: Id, target: Id, sourcePort: string, targetPort: string)
      reads this`nodes
    {
      exists i: nat, j: nat, k: nat, l: nat ::
        && DeclaredFirst(nodes, i) && nodes[i].id == source && nodes[i].nodeType in catalogue
        && DeclaredFirst(nodes, j) && nodes[j].id == target && nodes[j].nodeType in catalogue
        && PortAt(catalogue[nodes[i].nodeType].outputs, sourcePort, k)
        && PortAt(catalogue[nodes[j].nodeType].inputs, targetPort, l)
        && !ValueTypesCompatible(catalogue[nodes[i].nodeType].outputs[k].valueType,
                                 catalogue[nodes[j].nodeType].inputs[l].valueType)
    }

    lemma FirstIsFound(i: nat)
      requires DeclaredFirst(nodes, i)
      ensures nodes[i].id in CanvasIds(nodes) && FindNode(nodes, nodes[i].id) == i
    {
      assert CanvasIds(nodes)[i] == nodes[i].id;
      var j := FindNode(nodes, nodes[i].id);
      assert i <= j || j <= i;
    }

    lemma MismatchMeans(source: Id, target: Id, sourcePort: string, targetPort: string)
      ensures Mismatch(source, target, sourcePort, targetPort) <==> TypesClash(source, target, sourcePort, targetPort)
    {
      hide ValueTypesCompatible, FindPort, CanvasIds, FindNode;
      if Mismatch(source, target, sourcePort, targetPort) {
        var i, j := FindNode(nodes, source), FindNode(nodes, target);
        var k := FoundPort(catalogue[nodes[i].nodeType].outputs, sourcePort);
        var l := FoundPort(catalogue[nodes[j].nodeType].inputs, targetPort);
        FindsTheFirst(catalogue[nodes[i].nodeType].outputs, sourcePort, k);
        FindsTheFirst(catalogue[nodes[j].nodeType].inputs, targetPort, l);
        PortIsThere(catalogue[nodes[i].nodeType].outputs, sourcePort, k);
        PortIsThere(catalogue[nodes[j].nodeType].inputs, targetPort, l);
        assert TypesClash(source, target, sourcePort, targetPort);
      }
      if TypesClash(source, target, sourcePort, targetPort) {
        var i: nat, j: nat, k: nat, l: nat :|
          && DeclaredFirst(nodes, i) && nodes[i].id == source && nodes[i].nodeType in catalogue
          && DeclaredFirst(nodes, j) && nodes[j].id == target && nodes[j].nodeType in catalogue
          && PortAt(catalogue[nodes[i].nodeType].outputs, sourcePort, k)
          && PortAt(catalogue[nodes[j].nodeType].inputs, targetPort, l)
          && !ValueTypesCompatible(catalogue[nodes[i].nodeType].outputs[k].valueType,
                                   catalogue[nodes[j].nodeType].inputs[l].valueType);
        FirstIsFound(i);
        FirstIsFound(j);
        FindsTheFirst(catalogue[nodes[i].nodeType].outputs, sourcePort, k);
        FindsTheFirst(catalogue[nodes[j].nodeType].inputs, targetPort, l);
      }
    }

    /** Add an edge between two ports, unless it loops, repeats a connection, or joins incompatible types. */
    method Connect(source: Id, target: Id, sourcePort: string, targetPort: string, kind: EdgeKind) returns (verdict: Verdict)
      modifies this`edges, mint`edgeCounter
      ensures verdict.SelfConnection? <==> source == target
      ensures verdict.DuplicateConnection? <==>
        source != target && exists e :: e in old(edges) && Clashes(e, source, target, sourcePort, targetPort, kind)
      ensures source != target && kind == Data ==>
        (verdict.DuplicateConnection? <==>
          exists e :: e in old(edges) && e.kind == Data && e.source == source && e.target == target &&
                      (e.sourcePort == Some(sourcePort) || (e.sourcePort.None? && sourcePort == "out")) &&
                      (e.targetPort == Some(targetPort) || (e.targetPort.None? && targetPort == "in")))
      ensures source != target && kind == Control && sourcePort != "success" && sourcePort != "failure" ==>
        (verdict.DuplicateConnection? <==>
          exists e :: e in old(edges) && e.kind == Control && e.source == source && e.target == target)
      ensures source != target && kind == Control && (sourcePort == "success" || sourcePort == "failure") ==>
        (verdict.DuplicateConnection? <==>
          exists e :: e in old(edges) && e.kind == Control && e.source == source && e.target == target &&
                      e.branch == if sourcePort == "success" then EdgeBranch.Success else EdgeBranch.Failure)
      ensures verdict.IncompatiblePorts? ==> kind == Data && Mismatch(source, target, sourcePort, targetPort)
      ensures kind == Data && Mismatch(source, target, sourcePort, targetPort) ==> !verdict.Connected?
      ensures verdict.IncompatiblePorts? ==> kind == Data && TypesClash(source, target, sourcePort, targetPort)
      ensures kind == Data && TypesClash(source, target, sourcePort, targetPort) ==> !verdict.Connected?
      ensures !verdict.Connected? ==> edges == old(edges) && mint.edgeCounter == old(mint.edgeCounter)
      ensures verdict.Connected? ==>
        && |edges| == |old(edges)| + 1
        && edges[|old(edges)|].id !in EdgeIds(old(edges))
        && edges == old(edges) + [NewEdge(edges[|old(edges)|].id, source, target, sourcePort, targetPort, kind)]
        && IsConnection(edges[|old(edges)|], source, target, sourcePort, targetPort, kind)
      ensures WellConnected(old(edges)) ==> WellConnected(edges)
    {
      hide WellConnected, Clashes, NewEdge, IsConnection;
      if source == target {
        return SelfConnection;
      }
      var duplicate := EdgeExists(edges, source, target, sourcePort, targetPort, kind);
      if duplicate {
        return DuplicateConnection;
      }
      MismatchMeans(source, target, sourcePort, targetPort);
      if kind == Data && Mismatch(source, target, sourcePort, targetPort) {
        return IncompatiblePorts;
      }
      var id := mint.NextEdgeId(source, target, EdgeIds(edges));
      if WellConnected(edges) {
        ConnectingKeepsWellConnected(edges, id, source, target, sourcePort, targetPort, kind);
      }
      NewEdgesConnect(id, source, target, sourcePort, targetPort, kind);
      edges := edges + [NewEdge(id, source, target, sourcePort, targetPort, kind)];
      return Connected;
    }

    /** Every edge joins two declared nodes. */
    ghost predicate EdgesHaveEnds()
      reads this`nodes, this`edges
    {
      forall e :: e in edges ==> e.source in CanvasIds(nodes) && e.target in CanvasIds(nodes)
    }

    function GroupState(): Groups.State
      reads this`nodes, this`extensions
    {
      Groups.State(CanvasIds(nodes), Groups.GroupsIn(extensions))
    }

    predicate EdgeSelected()
      reads this`selectedEdge
    {
      selectedEdge.Some? && selectedEdge.value != ""
    }

    /** An edge, if one is selected; otherwise the selected nodes, their edges, and their memberships. */
    method DeleteSelection()
      modifies this
      ensures WellConnected(old(edges)) ==> WellConnected(edges)
      ensures old(EdgesHaveEnds()) ==> EdgesHaveEnds()
      ensures old(EdgeSelected()) ==>
        && nodes == old(nodes) && extensions == old(extensions)
        && var gone := old(selectedEdge).value; edges == Kept(old(edges), (e: Edge) => e.id != gone)
      ensures !old(EdgeSelected()) && old(selected) != [] ==>
        && nodes == Kept(old(nodes), (n: CanvasNode) => n.id !in old(selected))
        && (var gone := old(selected); edges == Kept(old(edges), (e: Edge) => e.source !in gone && e.target !in gone))
        && GroupState() == Groups.Apply(old(GroupState()), Groups.DeleteNodes(old(selected)), "")
      ensures old(EdgeSelected()) || old(selected) != [] ==> selected == [] && primary == None && selectedEdge == None
      ensures !old(EdgeSelected()) && old(selected) == [] ==>
        && nodes == old(nodes) && edges == old(edges) && extensions == old(extensions)
        && selected == [] && primary == old(primary) && selectedEdge == old(selectedEdge)
    {
      hide WellConnected, Groups.Apply, Kept;
      if selectedEdge.Some? && selectedEdge.value != "" {
        DeleteEdge(selectedEdge.value);
        SetSelection([], None);
      } else if selected != [] {
        DeleteNodes(selected);
        SetSelection([], None);
      }
    }

    method DeleteEdge(id: string)
      modifies this`edges
      ensures edges == WithoutEdge(old(edges), id)
      ensures WellConnected(old(edges)) ==> WellConnected(edges)
      ensures old(EdgesHaveEnds()) ==> EdgesHaveEnds()
    {
      WithoutEdgeKeeps(edges, id);
      edges := WithoutEdge(edges, id);
    }

    method DeleteNodes(ids: seq<Id>)
      modifies this`nodes, this`edges, this`extensions
      ensures nodes == Kept(old(nodes), (n: CanvasNode) => n.id !in ids) && edges == WithoutEnds(old(edges), ids)
      ensures WellConnected(old(edges)) ==> WellConnected(edges)
      ensures old(EdgesHaveEnds()) ==> EdgesHaveEnds()
      ensures GroupState() == Groups.Apply(old(GroupState()), Groups.DeleteNodes(ids), "")
    {
      hide WellConnected, Groups.NonEmpty, Groups.ChangedAll, Groups.GroupsIn, Kept;
      WithoutEndsKeeps(edges, ids);
      RemainingIds(nodes, ids);
      KeptIsExact(CanvasIds(nodes), id => id !in ids);
      nodes := Kept(nodes, (n: CanvasNode) => n.id !in ids);
      edges := WithoutEnds(edges, ids);
      PruneGroups();
    }

    method PruneGroups()
      modifies this`extensions
      ensures GroupState().groups ==
        Groups.NonEmpty(Groups.ChangedAll(old(GroupState()).groups, Groups.OnlyNodes(CanvasIds(nodes))))
    {
      var change := Groups.OnlyNodes(CanvasIds(nodes));
      var groups := Groups.NonEmpty(Groups.ChangedAll(Groups.GroupsIn(extensions), change));
      Groups.ReadIsTidy(extensions);
      Groups.ShrinkingStaysTidy(Groups.GroupsIn(extensions), change);
      Groups.TidyIsFixed(groups);
      Groups.ReadAfterWrite(extensions, groups);
      extensions := Groups.Stored(extensions, groups);
    }

    /** The layout button; only positions change. */
    method Arrange()
      modifies this`nodes
      ensures nodes == LaidOut(old(nodes), edges)
      ensures OnlyMoved(old(nodes), nodes) && NoOverlap(nodes) && EveryNodePlaced(nodes)
      ensures KeepsVerticalOrder(old(nodes), nodes) && StacksRows(nodes) && InLevelColumns(nodes, LevelsOf(CanvasIds(nodes), edges))
      ensures
        var all := CanvasIds(nodes);
        var arcs := EditorGraph.EditorArcs(all, edges, false);
        UniqueRoots(all, arcs) || (Acyclic(arcs) && OnlyLastRepeats(all)) ==>
          LeftToRight(arcs, nodes) && InLongestColumns(arcs, nodes)
      ensures AllApart(nodes) <==> LaterKeepClear(old(nodes), FullLevels(old(nodes), edges))
      ensures NoDuplicates(CanvasIds(nodes)) ==> AllApart(nodes)
      ensures
        var arcs := EditorGraph.EditorArcs(CanvasIds(nodes), edges, false);
        NoDuplicates(CanvasIds(nodes)) && Acyclic(arcs) ==> RunsRight(arcs, nodes)
    {
      hide NoOverlap, EveryNodePlaced, KeepsVerticalOrder, StacksRows, LeftToRight, InLongestColumns, UniqueRoots, LevelsOf,
           InLevelColumns, AllApart, RunsRight, Acyclic, NoDuplicates, EditorGraph.EditorArcs, OnlyLastRepeats,
           LaterKeepClear, FullLevels, PlacedBy;
      if nodes == [] {
        NothingToArrange(edges);
        return;
      }
      var placed := AutoLayout(nodes, edges);
      assert CanvasIds(placed) == CanvasIds(nodes);
      nodes := placed;
    }
  }

  lemma EndsAreOnWalks(arcs: seq<Arc>, a: Id, b: Id)
    ensures Reaches(arcs, a, b) ==> OnSomeWalk(arcs, a, b, a) && OnSomeWalk(arcs, a, b, b)
  {
    ReachesSelf(arcs, a);
    ReachesSelf(arcs, b);
    WalksThrough(arcs, a, b, a);
    WalksThrough(arcs, a, b, b);
  }

  /** Exactly the edges with this id are gone. */
  ghost predicate NotNamed(id: string, before: seq<Edge>, after: seq<Edge>) {
    forall e :: e in after <==> e in before && e.id != id
  }

  /** Exactly the edges that touch one of these nodes are gone. */
  ghost predicate Untouched(ids: seq<Id>, before: seq<Edge>, after: seq<Edge>) {
    forall e :: e in after <==> e in before && e.source !in ids && e.target !in ids
  }

  function WithoutEdge(edges: seq<Edge>, id: string): seq<Edge> {
    Kept(edges, (e: Edge) => e.id != id)
  }

  function WithoutEnds(edges: seq<Edge>, ids: seq<Id>): seq<Edge> {
    Kept(edges, (e: Edge) => e.source !in ids && e.target !in ids)
  }

  lemma WithoutEdgeKeeps(edges: seq<Edge>, id: string)
    ensures NotNamed(id, edges, WithoutEdge(edges, id))
    ensures WellConnected(edges) ==> WellConnected(WithoutEdge(edges, id))
  {
    hide WellConnected;
    KeptIsExact(edges, (e: Edge) => e.id != id);
    if WellConnected(edges) {
      DroppingKeepsWellConnected(edges, (e: Edge) => e.id != id);
    }
  }

  lemma WithoutEndsKeeps(edges: seq<Edge>, ids: seq<Id>)
    ensures Untouched(ids, edges, WithoutEnds(edges, ids))
    ensures WellConnected(edges) ==> WellConnected(WithoutEnds(edges, ids))
  {
    hide WellConnected;
    KeptIsExact(edges, (e: Edge) => e.source !in ids && e.target !in ids);
    if WellConnected(edges) {
      DroppingKeepsWellConnected(edges, (e: Edge) => e.source !in ids && e.target !in ids);
    }
  }

  lemma {:induction false} RemainingIds(nodes: seq<CanvasNode>, ids: seq<Id>)
    ensures CanvasIds(Kept(nodes, (n: CanvasNode) => n.id !in ids)) == Kept(CanvasIds(nodes), id => id !in ids)
  {
    if nodes != [] {
      var init, last := nodes[..|nodes| - 1], nodes[|nodes| - 1];
      RemainingIds(init, ids);
      assert CanvasIds(nodes)[..|nodes| - 1] == CanvasIds(init);
    }
  }

  lemma NothingToArrange(edges: seq<Edge>)
    ensures
      var arcs := EditorGraph.EditorArcs(CanvasIds([]), edges, false);
      && LaidOut([], edges) == [] && OnlyMoved([], []) && NoOverlap([]) && EveryNodePlaced([])
      && KeepsVerticalOrder([], []) && StacksRows([])
      && InLevelColumns([], LevelsOf(CanvasIds([]), edges))
      && LeftToRight(arcs, []) && InLongestColumns(arcs, []) && AllApart([]) && RunsRight(arcs, [])
      && LaterKeepClear([], FullLevels([], edges))
  {
    hide LevelsOf, FullLevels, EditorGraph.EditorArcs;
  }
}
