// The course of one visit, read off the trace: what is said of the node that starts, when it is passed
// over, which side its edges are taken on, and when its failure ends the run.
module NodeLaws {
  import opened Digraph
  import opened EndLaws
  import opened Events
  import opened OrderedSets
  import opened RoutingLaws
  import opened RunLaws
  import opened RunSteps
  import opened RunTrace
  import opened Workflow
  import CancelLaws
  import Json
  import Retry

  /** The node the document declares first under this id. */
  ghost predicate DeclaredAs(doc: Document, id: Id, node: Node) {
    exists k :: 0 <= k < |doc.nodes| && doc.nodes[k] == node && node.id == id && forall j :: 0 <= j < k ==> doc.nodes[j].id != id
  }

  lemma {:induction false} LookupIsFirst(nodes: seq<Node>, id: Id)
    ensures Lookup(nodes, id).Some? ==>
      exists k :: 0 <= k < |nodes| && nodes[k] == Lookup(nodes, id).value && forall j :: 0 <= j < k ==> nodes[j].id != id
  {
    if nodes != [] && nodes[0].id != id && Lookup(nodes, id).Some? {
      LookupIsFirst(nodes[1..], id);
      var k :| 0 <= k < |nodes[1..]| && nodes[1..][k] == Lookup(nodes, id).value && forall j :: 0 <= j < k ==> nodes[1..][j].id != id;
      assert nodes[k + 1] == Lookup(nodes, id).value;
      forall j | 0 <= j < k + 1 ensures nodes[j].id != id {
        assert j > 0 ==> nodes[j] == nodes[1..][j - 1];
      }
    }
  }

  /** The node that is up is the first declared under the id visited last. */
  lemma NodeAtHand(plan: Plan, scope: Json.Scope, trace: seq<Entry>)
    requires Accepted(plan, scope, trace)
    requires var phase := Replay(plan, scope, trace).phase; Busy(phase) || Underway(phase)
    ensures
      var node := NodeOf(Replay(plan, scope, trace).phase);
      node.id == LastVisit(trace) && DeclaredAs(plan.doc, LastVisit(trace), node)
  {
    hide Observe, VisitedIn, Replay, Accepted;
    EverythingIsCounted(plan, scope, trace);
    VisitsAreRecorded(plan, scope, trace);
    DeclaredThroughout(plan, scope, trace);
    LookupIsFirst(plan.doc.nodes, LastVisit(trace));
  }

  // ----------------------------------------------------------- milestones

  function Milestones(events: seq<Event>): seq<Event> {
    Kept(events, (e: Event) => e.NodeStarted? || e.NodeFinished? || e.NodeFailed?)
  }

  function ActivationsIn(events: seq<Event>): seq<Event> {
    Kept(events, (e: Event) => e.EdgeActivated?)
  }

  lemma SinceSnoc(since: seq<Event>, e: Event)
    ensures Milestones(since + [e]) ==
      Milestones(since) + (if e.NodeStarted? || e.NodeFinished? || e.NodeFailed? then [e] else [])
    ensures ActivationsIn(since + [e]) == ActivationsIn(since) + (if e.EdgeActivated? then [e] else [])
  {
    KeptSnoc(since, e, (e: Event) => e.NodeStarted? || e.NodeFinished? || e.NodeFailed?);
    KeptSnoc(since, e, (e: Event) => e.EdgeActivated?);
  }

  predicate HasStarted(ms: seq<Event>, id: Id) {
    ms != [] && ms[0].NodeStarted? && ms[0].nodeId == id
  }

  predicate HasSucceeded(ms: seq<Event>, id: Id) {
    |ms| == 2 && HasStarted(ms, id) && ms[1].NodeFinished? && ms[1].nodeId == id
  }

  predicate FailedWith(ms: seq<Event>, id: Id, error: NodeError) {
    && |ms| == 2 && HasStarted(ms, id) && ms[1].NodeFailed? && ms[1].nodeId == id
    && ms[1].code == error.Code() && ms[1].message == error.Message()
  }

  /** There is a failure edge out of the node. */
  ghost predicate FailureEdge(doc: Document, id: Id) {
    exists e :: e in doc.edges && e.kind == Control && e.source == id && e.branch == EdgeBranch.Failure
  }

  /** What a visit has published so far, by the phase it is in. */
  ghost predicate Staged(plan: Plan, m: Monitor, ms: seq<Event>, activated: seq<Event>) {
    match m.phase
    case Initial => ms == []
    case At(_, _) => ms == [] && activated == []
    case Denied(_, error) => ms == [] && activated == [] && error.PermissionDenied?
    case Doomed(code, message) => |ms| == 1 && ms[0].NodeFailed? && ms[0].code == code && ms[0].message == message
    case Window(node, _, _, _) => |ms| == 1 && HasStarted(ms, node.id) && activated == []
    case Finished(node) => HasSucceeded(ms, node.id) && activated == []
    case Broken(node, error) => FailedWith(ms, node.id, error) && activated == []
    case Routing(node, ok, ran, pending, taken, cause) =>
      && (taken <==> activated != []) && activated + Activations(pending) == DueAfter(plan, node.id, m.scope, ok)
      && (!ran ==> ok && !node.enabled && ms == [])
      && (ran && ok ==> HasSucceeded(ms, node.id))
      && (!ok ==>
            && cause.Some? && FailedWith(ms, node.id, cause.value)
            && (FailureEdge(plan.doc, node.id) || node.continueOnError))
    case _ => true
  }

  lemma FailureRouteIsEdge(plan: Plan, node: Node)
    ensures HasFailureRoute(plan, node) <==> FailureEdge(plan.doc, node.id)
  {
    EdgesFromExact(plan.doc.edges, node.id);
  }

  lemma RouteStaged(plan: Plan, m: Monitor, ok: bool, ms: seq<Event>, activated: seq<Event>)
    requires Staged(plan, m, ms, activated) && !OnRoute(plan, m, ok).phase.Rejected?
    ensures Staged(plan, OnRoute(plan, m, ok), ms, activated)
  {
    hide TakenEdges, EdgesFrom, HasFailureRoute, Firing, FailureEdge, HasSucceeded, FailedWith, HasStarted;
    RouteBegins(plan, m, ok);
    if m.phase.Broken? {
      FailureRouteIsEdge(plan, m.phase.node);
    }
  }

  lemma UnpublishedStaged(plan: Plan, m: Monitor, entry: Entry, ms: seq<Event>, activated: seq<Event>)
    requires !entry.step.Emit? && !entry.step.Visit? && !Observe(plan, m, entry).phase.Rejected?
    requires Staged(plan, m, ms, activated)
    ensures Staged(plan, Observe(plan, m, entry), ms, activated)
  {
    hide Observe, HasSucceeded, FailedWith, HasStarted, FailureEdge, DueAfter, Activations;
    if ClearsTheWay(entry.step) {
      ClearanceOnly(plan, m, entry);
    } else if entry.step.Route? {
      hide Staged, OnRoute;
      RouteObserved(plan, m, entry);
      RouteStaged(plan, m, entry.step.ok, ms, activated);
    } else {
      WorkOnly(plan, m, entry);
      if entry.step.Deny? {
        DenialStaged(plan, m, entry);
      }
    }
  }

  lemma DenialStaged(plan: Plan, m: Monitor, entry: Entry)
    requires entry.step.Deny? && !Observe(plan, m, entry).phase.Rejected?
    ensures Observe(plan, m, entry).phase.Denied? && Observe(plan, m, entry).phase.error.PermissionDenied?
  {
    hide OnEvent, Eligible, PastBreakpoint;
  }

  lemma StartStaged(plan: Plan, m: Monitor, e: Event, ms: seq<Event>, activated: seq<Event>)
    requires e.NodeStarted? && !OnStarted(plan, m, e).phase.Rejected? && Staged(plan, m, ms, activated)
    ensures Staged(plan, OnStarted(plan, m, e), ms + [e], activated)
  {
    hide OnStarted;
    StartShape(plan, m, e);
  }

  lemma FinishStaged(plan: Plan, m: Monitor, e: Event, ms: seq<Event>, activated: seq<Event>)
    requires e.NodeFinished? && !OnFinished(plan, m, e).phase.Rejected? && Staged(plan, m, ms, activated)
    ensures Staged(plan, OnFinished(plan, m, e), ms + [e], activated)
  {
    hide OnFinished;
    FinishShape(plan, m, e);
  }

  lemma FailureStaged(plan: Plan, m: Monitor, e: Event, ms: seq<Event>, activated: seq<Event>)
    requires e.NodeFailed? && !OnFailed(plan, m, e).phase.Rejected? && Staged(plan, m, ms, activated)
    ensures Staged(plan, OnFailed(plan, m, e), ms + [e], activated)
  {
    hide ConditionError, LastError, Retry.KeepsRetrying, NodeError.Code, NodeError.Message, NodeError.Retryable, DueAfter,
         Activations, FailureEdge;
    match m.phase
    case At(_, _) =>
    case Denied(_, _) =>
    case Window(_, _, _, _) =>
    case _ =>
  }

  lemma ActivationStaged(plan: Plan, m: Monitor, e: Event, ms: seq<Event>, activated: seq<Event>)
    requires e.EdgeActivated? && !OnActivated(m, e).phase.Rejected? && Staged(plan, m, ms, activated)
    ensures Staged(plan, OnActivated(m, e), ms, activated + [e])
  {
    hide HasSucceeded, FailedWith, HasStarted, FailureEdge, DueAfter;
    var pending := m.phase.pending;
    assert Activations(pending) == [e] + Activations(pending[1..]);
    assert (activated + [e]) + Activations(pending[1..]) == activated + Activations(pending);
  }

  lemma TerminalStaged(plan: Plan, m: Monitor, e: Event, c: bool)
    requires IsTerminal(e) && !OnTerminal(plan, m, e, c).phase.Rejected?
    ensures OnTerminal(plan, m, e, c).phase.Ended?
  {
    hide MayFail, MayCancel;
  }

  lemma EventStaged(plan: Plan, m: Monitor, e: Event, c: bool, since: seq<Event>)
    requires !OnEvent(plan, m, e, c).phase.Rejected? && Staged(plan, m, Milestones(since), ActivationsIn(since))
    ensures Staged(plan, OnEvent(plan, m, e, c), Milestones(since + [e]), ActivationsIn(since + [e]))
  {
    hide OnStarted, OnFinished, OnTransferred, OnFailed, OnTerminal, OnActivated, OnPaused, Staged, Milestones, ActivationsIn;
    SinceSnoc(since, e);
    var ms, activated := Milestones(since), ActivationsIn(since);
    assert ms + [] == ms && activated + [] == activated;
    match e
    case NodeStarted(_, _, _, _, _, _, _) => StartStaged(plan, m, e, ms, activated);
    case NodeFinished(_, _, _) => FinishStaged(plan, m, e, ms, activated);
    case NodeFailed(_, _, _, _, _) => FailureStaged(plan, m, e, ms, activated);
    case EdgeActivated(_, _, _, _) => ActivationStaged(plan, m, e, ms, activated);
    case DataTransferred(_, _, _, _, _, _) =>
      TransferShape(plan, m, e);
      SameStage(plan, m, OnEvent(plan, m, e, c), ms, activated);
    case RunPaused =>
      PauseShape(plan, m);
      SameStage(plan, m, OnEvent(plan, m, e, c), ms, activated);
    case RunCancelled(_) =>
      TerminalStaged(plan, m, e, c);
      OverIsStaged(plan, OnEvent(plan, m, e, c), ms, activated);
    case RunCompleted(_) =>
      TerminalStaged(plan, m, e, c);
      OverIsStaged(plan, OnEvent(plan, m, e, c), ms, activated);
    case RunFailed(_, _) =>
      TerminalStaged(plan, m, e, c);
      OverIsStaged(plan, OnEvent(plan, m, e, c), ms, activated);
    case RunStarted(_) => OverIsStaged(plan, OnEvent(plan, m, e, c), ms, activated);
    case _ =>
  }

  lemma SameStage(plan: Plan, m: Monitor, n: Monitor, ms: seq<Event>, activated: seq<Event>)
    requires Staged(plan, m, ms, activated) && ((m.phase.At? && n.phase.At?) || n.phase.Ready?)
    ensures Staged(plan, n, ms, activated)
  {
  }

  lemma OverIsStaged(plan: Plan, n: Monitor, ms: seq<Event>, activated: seq<Event>)
    requires n.phase.Ended? || n.phase.Ready?
    ensures Staged(plan, n, ms, activated)
  {
  }

  lemma {:induction false} VisitsAreStaged(plan: Plan, scope: Json.Scope, trace: seq<Entry>)
    requires Accepted(plan, scope, trace)
    ensures Staged(plan, Replay(plan, scope, trace), Milestones(SinceVisit(trace)), ActivationsIn(SinceVisit(trace)))
  {
    hide Observe, OnEvent, Staged, Milestones, ActivationsIn;
    if trace == [] {
      NothingStaged(plan, scope);
    } else {
      AcceptedPrefix(plan, scope, trace);
      var init, last := trace[..|trace| - 1], trace[|trace| - 1];
      VisitsAreStaged(plan, scope, init);
      var m := Replay(plan, scope, init);
      if last.step.Emit? {
        EventObserved(plan, m, last.step.event, last.cancelled);
        EventStaged(plan, m, last.step.event, last.cancelled, SinceVisit(init));
      } else if last.step.Visit? {
        VisitStaged(plan, m, last);
      } else {
        UnpublishedStaged(plan, m, last, Milestones(SinceVisit(init)), ActivationsIn(SinceVisit(init)));
      }
    }
  }

  lemma NothingStaged(plan: Plan, scope: Json.Scope)
    ensures Staged(plan, Begin(plan, scope), Milestones([]), ActivationsIn([]))
  {
  }

  // ------------------------------------------------------------- theorems

  /**
   * A start tells of the node declared first under the id visited last: it is enabled, its condition holds,
   * and type, configuration and timeout are its own.
   */
  lemma StartsAsDeclared(plan: Plan, scope: Json.Scope, trace: seq<Entry>, i: nat) returns (node: Node)
    requires Accepted(plan, scope, trace) && i < |trace| && trace[i].step.Emit? && trace[i].step.event.NodeStarted?
    ensures
      var e, s := trace[i].step.event, Replay(plan, scope, trace[..i]).scope;
      && e.nodeId == LastVisit(trace[..i]) && DeclaredAs(plan.doc, e.nodeId, node) && node.enabled
      && (node.condition.Some? ==> plan.guard(node.condition.value, s) == Verdict(true))
      && e.nodeType == node.nodeType && e.config == node.config && e.timeoutMs == node.timeoutMs
      && e.variablesBefore == plan.redact(s) && e.nodeType in plan.registry
      && e.resolvedConfig == plan.resolve(s, node.config, plan.registry[node.nodeType].configSchema)
  {
    hide Observe, OnEvent, VisitedIn, DeclaredAs;
    AcceptedUpTo(plan, scope, trace, i);
    AcceptedUpTo(plan, scope, trace, i + 1);
    assert trace[..i + 1][..i] == trace[..i];
    var m, e := Replay(plan, scope, trace[..i]), trace[i].step.event;
    EventObserved(plan, m, e, trace[i].cancelled);
    node := StartTells(plan, m, e, trace[i].cancelled);
    NodeAtHand(plan, scope, trace[..i]);
  }

  lemma StartTells(plan: Plan, m: Monitor, e: Event, c: bool) returns (node: Node)
    requires e.NodeStarted? && !OnEvent(plan, m, e, c).phase.Rejected?
    ensures
      && m.phase.At? && node == m.phase.node && e.nodeId == node.id && node.enabled
      && (node.condition.Some? ==> plan.guard(node.condition.value, m.scope) == Verdict(true))
      && e.nodeType == node.nodeType && e.config == node.config && e.timeoutMs == node.timeoutMs
      && e.variablesBefore == plan.redact(m.scope) && e.nodeType in plan.registry
      && e.resolvedConfig == plan.resolve(m.scope, node.config, plan.registry[node.nodeType].configSchema)
  {
    hide Inflow, FoldInputs, PastBreakpoint;
    node := m.phase.node;
  }

  /** A node is skipped only if it is enabled and its condition evaluates to something falsy. */
  lemma SkipsAreCalledFor(plan: Plan, scope: Json.Scope, trace: seq<Entry>, i: nat) returns (node: Node)
    requires Accepted(plan, scope, trace) && i < |trace| && trace[i].step.Skip?
    ensures DeclaredAs(plan.doc, LastVisit(trace[..i]), node) && node.enabled && node.condition.Some?
    ensures plan.guard(node.condition.value, Replay(plan, scope, trace[..i]).scope) == Verdict(false)
  {
    hide OnEvent, VisitedIn, DeclaredAs;
    AcceptedUpTo(plan, scope, trace, i);
    AcceptedUpTo(plan, scope, trace, i + 1);
    assert trace[..i + 1][..i] == trace[..i];
    node := Replay(plan, scope, trace[..i]).phase.node;
    NodeAtHand(plan, scope, trace[..i]);
  }

  /**
   * Edges are followed in three cases only: as after a success, for a node that is disabled, and for one
   * whose end is its last report; and as after a failure, for one whose failure is, if there is a failure
   * edge or the node lets the run continue.
   */
  lemma RoutesAreCalledFor(plan: Plan, scope: Json.Scope, trace: seq<Entry>, i: nat) returns (node: Node)
    requires Accepted(plan, scope, trace) && i < |trace| && trace[i].step.Route?
    ensures DeclaredAs(plan.doc, LastVisit(trace[..i]), node)
    ensures
      var ms := Milestones(SinceVisit(trace[..i]));
      if trace[i].step.ok then (ms == [] && !node.enabled) || HasSucceeded(ms, node.id)
      else
        && |ms| == 2 && HasStarted(ms, node.id) && ms[1].NodeFailed? && ms[1].nodeId == node.id
        && (FailureEdge(plan.doc, node.id) || node.continueOnError)
  {
    hide Observe, VisitedIn, SinceVisit, Milestones, ActivationsIn, DueAfter, Activations, DeclaredAs, OnRoute, FailureEdge;
    AcceptedUpTo(plan, scope, trace, i);
    AcceptedUpTo(plan, scope, trace, i + 1);
    assert trace[..i + 1][..i] == trace[..i];
    var m, since := Replay(plan, scope, trace[..i]), SinceVisit(trace[..i]);
    RouteObserved(plan, m, trace[i]);
    RouteBegins(plan, m, trace[i].step.ok);
    VisitsAreStaged(plan, scope, trace[..i]);
    RouteStaged(plan, m, trace[i].step.ok, Milestones(since), ActivationsIn(since));
    node := RoutedFrom(plan, m, trace[i].step.ok);
    NodeAtHand(plan, scope, trace[..i]);
  }

  lemma RoutedFrom(plan: Plan, m: Monitor, ok: bool) returns (node: Node)
    requires !OnRoute(plan, m, ok).phase.Rejected?
    ensures Busy(m.phase) || Underway(m.phase)
    ensures node == NodeOf(m.phase) && OnRoute(plan, m, ok).phase.Routing? && OnRoute(plan, m, ok).phase.node == node
    ensures OnRoute(plan, m, ok).phase.ok == ok && (OnRoute(plan, m, ok).phase.ran <==> !m.phase.At?)
  {
    hide TakenEdges, EdgesFrom, HasFailureRoute;
    node := m.phase.node;
  }

  /** The last report of the visit is a failure. */
  predicate HasFailed(since: seq<Event>) {
    var ms := Milestones(since);
    ms != [] && ms[|ms| - 1].NodeFailed?
  }

  /**
   * When a node is left behind, the edges published as activated since its visit are exactly the control
   * edges out of it, in document order, whose guard is absent or truthy and whose branch is not that of
   * the other outcome: a failure edge after a success or a disabled node, a success edge after a failure.
   */
  lemma EdgesFollowTheOutcome(plan: Plan, scope: Json.Scope, trace: seq<Entry>, i: nat)
    requires Accepted(plan, scope, trace) && i < |trace| && trace[i].step.Leave?
    ensures
      var id, s, since := LastVisit(trace[..i]), Replay(plan, scope, trace[..i]).scope, SinceVisit(trace[..i]);
      ActivationsIn(since) == Activations(Kept(plan.doc.edges, (e: Edge) =>
        && e.kind == Control && e.source == id
        && e.branch != (if HasFailed(since) then EdgeBranch.Success else EdgeBranch.Failure)
        && (e.condition.None? || plan.guard(e.condition.value, s) == Verdict(true))))
  {
    hide OnEvent, VisitedIn, SinceVisit, Milestones, ActivationsIn, DueAfter, DeclaredAs, FailureEdge;
    AcceptedUpTo(plan, scope, trace, i);
    AcceptedUpTo(plan, scope, trace, i + 1);
    assert trace[..i + 1][..i] == trace[..i];
    var m, since := Replay(plan, scope, trace[..i]), SinceVisit(trace[..i]);
    VisitsAreStaged(plan, scope, trace[..i]);
    NodeAtHand(plan, scope, trace[..i]);
    assert m.phase.Routing? && m.phase.pending == [];
    LeftAsDue(plan, m, since);
  }

  lemma LeftAsDue(plan: Plan, m: Monitor, since: seq<Event>)
    requires m.phase.Routing? && m.phase.pending == [] && Staged(plan, m, Milestones(since), ActivationsIn(since))
    ensures ActivationsIn(since) == Activations(Kept(plan.doc.edges, (e: Edge) =>
      && e.kind == Control && e.source == m.phase.node.id
      && e.branch != (if HasFailed(since) then EdgeBranch.Success else EdgeBranch.Failure)
      && (e.condition.None? || plan.guard(e.condition.value, m.scope) == Verdict(true))))
  {
    hide FailureEdge, Milestones, ActivationsIn;
    var id, s, ok := m.phase.node.id, m.scope, m.phase.ok;
    assert ActivationsIn(since) + [] == ActivationsIn(since) && Activations([]) == [];
    assert ok <==> !HasFailed(since);
    KeptCongruent(plan.doc.edges, (e: Edge) => Fires(plan, e, id, s, ok), (e: Edge) =>
      && e.kind == Control && e.source == id
      && e.branch != (if HasFailed(since) then EdgeBranch.Success else EdgeBranch.Failure)
      && (e.condition.None? || plan.guard(e.condition.value, s) == Verdict(true)));
  }

  /** A node whose failure was its last report is left behind only with an edge activated, or if it lets the run continue. */
  lemma FailuresAreHandled(plan: Plan, scope: Json.Scope, trace: seq<Entry>, i: nat) returns (node: Node)
    requires Accepted(plan, scope, trace) && i < |trace| && trace[i].step.Leave?
    ensures DeclaredAs(plan.doc, LastVisit(trace[..i]), node)
    ensures HasFailed(SinceVisit(trace[..i])) ==> ActivationsIn(SinceVisit(trace[..i])) != [] || node.continueOnError
  {
    hide OnEvent, VisitedIn, SinceVisit, Milestones, ActivationsIn, DueAfter, DeclaredAs, FailureEdge;
    AcceptedUpTo(plan, scope, trace, i);
    AcceptedUpTo(plan, scope, trace, i + 1);
    assert trace[..i + 1][..i] == trace[..i];
    VisitsAreStaged(plan, scope, trace[..i]);
    NodeAtHand(plan, scope, trace[..i]);
    node := Replay(plan, scope, trace[..i]).phase.node;
  }

  /** Why a run may fail over a node, given what the node's visit has published and the scope. */
  ghost predicate FailsOver(plan: Plan, node: Node, since: seq<Event>, s: Json.Scope, code: string, message: string) {
    var ms := Milestones(since);
    || (ms == [] && code == "E_UNKNOWN_NODE_TYPE" && node.enabled && node.nodeType !in plan.registry)
    || (&& |ms| == 2 && HasStarted(ms, node.id) && ms[1].NodeFailed? && ms[1].nodeId == node.id
        && code == ms[1].code && message == ms[1].message && !node.continueOnError && ActivationsIn(since) == []
        && NoFailureEdgeFires(plan, node.id, s))
  }

  ghost predicate NoFailureEdgeFires(plan: Plan, id: Id, s: Json.Scope) {
    forall e :: e in plan.doc.edges && e.kind == Control && e.source == id && e.branch == EdgeBranch.Failure ==>
      e.condition.Some? && plan.guard(e.condition.value, s) != Verdict(true)
  }

  lemma NothingDueNothingFires(plan: Plan, id: Id, s: Json.Scope)
    requires DueAfter(plan, id, s, false) == []
    ensures NoFailureEdgeFires(plan, id, s)
  {
    KeptIsExact(plan.doc.edges, (e: Edge) => Fires(plan, e, id, s, false));
    assert |Activations(Firing(plan, id, s, false))| == |Firing(plan, id, s, false)|;
    forall e | e in plan.doc.edges && e.kind == Control && e.source == id && e.branch == EdgeBranch.Failure
      ensures e.condition.Some? && plan.guard(e.condition.value, s) != Verdict(true)
    {
      assert e !in Firing(plan, id, s, false);
      assert !Fires(plan, e, id, s, false);
    }
  }

  lemma FailingRun(plan: Plan, m: Monitor, e: Event, c: bool, since: seq<Event>)
    requires e.RunFailed? && !OnEvent(plan, m, e, c).phase.Rejected?
    requires Staged(plan, m, Milestones(since), ActivationsIn(since))
    ensures
      || e.code in UNSTARTABLE || (e.code == "E_NODE_LIMIT" && m.executed >= plan.maxNodes)
      || (m.phase.Doomed? && e.code == m.phase.code && e.message == m.phase.message)
      || ((Busy(m.phase) || Underway(m.phase)) && FailsOver(plan, NodeOf(m.phase), since, m.scope, e.code, e.message))
  {
    hide Milestones, ActivationsIn, FailureEdge, DueAfter, NoFailureEdgeFires, ConditionHolds, PastBreakpoint, HasFailureRoute,
         NodeError.Code, NodeError.Message;
    assert MayFail(plan, m, e.code, e.message);
    match m.phase
    case Broken(node, error) =>
      FailureRouteIsEdge(plan, node);
      NoEdgeNoneFires(plan, node.id, m.scope);
    case Routing(node, ok, _, pending, _, _) =>
      NothingPendingNothingDue(plan, node.id, m.scope, ok, ActivationsIn(since), pending);
    case _ =>
  }

  lemma NoEdgeNoneFires(plan: Plan, id: Id, s: Json.Scope)
    ensures !FailureEdge(plan.doc, id) ==> NoFailureEdgeFires(plan, id, s)
  {
  }

  lemma NothingPendingNothingDue(plan: Plan, id: Id, s: Json.Scope, ok: bool, activated: seq<Event>, pending: seq<Edge>)
    requires activated + Activations(pending) == DueAfter(plan, id, s, ok)
    ensures activated == [] && pending == [] && !ok ==> NoFailureEdgeFires(plan, id, s)
  {
    if activated == [] && pending == [] && !ok {
      assert Activations(pending) == [];
      NothingDueNothingFires(plan, id, s);
    }
  }

  /**
   * A run fails before its first visit, because it may not execute another node, or over the node visited
   * last: its condition or the policy failed it; its type is unknown; or its executor failed, no failure
   * edge could be taken, and it does not let the run continue. The report is then the node's own.
   */
  lemma RunsFailForAReason(plan: Plan, scope: Json.Scope, trace: seq<Entry>, i: nat)
    requires Accepted(plan, scope, trace) && i < |trace| && trace[i].step.Emit? && trace[i].step.event.RunFailed?
    ensures
      var e, s, since := trace[i].step.event, Replay(plan, scope, trace[..i]).scope, SinceVisit(trace[..i]);
      var ms := Milestones(since);
      || e.code in UNSTARTABLE
      || (e.code == "E_NODE_LIMIT" && FinishedIn(Emitted(trace[..i])) >= plan.maxNodes)
      || (|ms| == 1 && ms[0].NodeFailed? && e.code == ms[0].code && e.message == ms[0].message)
      || (exists node :: DeclaredAs(plan.doc, LastVisit(trace[..i]), node) && FailsOver(plan, node, since, s, e.code, e.message))
  {
    hide Observe, OnEvent, VisitedIn, SinceVisit, Milestones, ActivationsIn, DueAfter, DeclaredAs, FailureEdge, FailsOver,
         FinishedIn;
    AcceptedUpTo(plan, scope, trace, i);
    AcceptedUpTo(plan, scope, trace, i + 1);
    assert trace[..i + 1][..i] == trace[..i];
    var m, e, since := Replay(plan, scope, trace[..i]), trace[i].step.event, SinceVisit(trace[..i]);
    EventObserved(plan, m, e, trace[i].cancelled);
    VisitsAreStaged(plan, scope, trace[..i]);
    FailingRun(plan, m, e, trace[i].cancelled, since);
    EverythingIsCounted(plan, scope, trace[..i]);
    if Busy(m.phase) || Underway(m.phase) {
      NodeAtHand(plan, scope, trace[..i]);
    }
  }

  // ------------------------------------------------------ reports and the scope

  /** Only an executor's return and the reports of its result change the scope. */
  lemma ScopeStays(plan: Plan, m: Monitor, entry: Entry)
    requires !Observe(plan, m, entry).phase.Rejected? && !entry.step.Return? && !entry.step.Emit?
    ensures Observe(plan, m, entry).scope == m.scope
  {
    hide OnEvent, TakenEdges, EdgesFrom, HasFailureRoute, ConditionHolds, PastBreakpoint, MayCall, DelayDue;
  }

  lemma GatheringKeepsScope(plan: Plan, m: Monitor, e: Event)
    ensures e.NodeStarted? ==> OnStarted(plan, m, e).scope == m.scope
    ensures e.DataTransferred? ==> OnTransferred(plan, m, e).scope == m.scope
  {
    hide MayStart, Inflow, Transfer;
  }

  lemma RoutingKeepsScope(plan: Plan, m: Monitor, e: Event, c: bool)
    ensures e.EdgeActivated? ==> OnActivated(m, e).scope == m.scope
    ensures IsTerminal(e) ==> OnTerminal(plan, m, e, c).scope == m.scope
    ensures OnPaused(plan, m).scope == m.scope
  {
    hide MayFail, MayCancel;
  }

  lemma EventKeepsScope(plan: Plan, m: Monitor, e: Event, c: bool)
    requires !OnEvent(plan, m, e, c).phase.Rejected? && !e.NodeFinished? && !e.NodeFailed?
    ensures OnEvent(plan, m, e, c).scope == m.scope
  {
    hide MayChatter, OnStarted, OnTransferred, OnActivated, OnTerminal, OnPaused, OnFailed, OnFinished;
    GatheringKeepsScope(plan, m, e);
    RoutingKeepsScope(plan, m, e, c);
  }

  /**
   * Between one step and the next the scope stands, unless an executor returns, which leaves the scope it
   * says, or the end of a node is reported.
   */
  lemma TheScopeStands(plan: Plan, scope: Json.Scope, trace: seq<Entry>, i: nat)
    requires Accepted(plan, scope, trace) && i < |trace|
    requires trace[i].step.Emit? ==> !trace[i].step.event.NodeFinished? && !trace[i].step.event.NodeFailed?
    ensures
      var before, after := Replay(plan, scope, trace[..i]).scope, Replay(plan, scope, trace[..i + 1]).scope;
      after == if trace[i].step.Return? then trace[i].step.scope else before
  {
    hide Observe, OnEvent;
    AcceptedUpTo(plan, scope, trace, i + 1);
    assert trace[..i + 1][..i] == trace[..i];
    var m := Replay(plan, scope, trace[..i]);
    if trace[i].step.Emit? {
      EventObserved(plan, m, trace[i].step.event, trace[i].cancelled);
      EventKeepsScope(plan, m, trace[i].step.event, trace[i].cancelled);
    } else if trace[i].step.Return? {
      ReturnSetsScope(plan, m, trace[i]);
    } else {
      ScopeStays(plan, m, trace[i]);
    }
  }

  lemma ReturnSetsScope(plan: Plan, m: Monitor, entry: Entry)
    requires entry.step.Return? && !Observe(plan, m, entry).phase.Rejected?
    ensures Observe(plan, m, entry).scope == entry.step.scope
  {
    hide OnEvent;
  }

  // ------------------------------------------------------------ the beginning

  lemma FirstStep(plan: Plan, m: Monitor, entry: Entry)
    requires m.phase.Initial? && !Observe(plan, m, entry).phase.Rejected?
    ensures entry.step.Emit? && (entry.step.event.RunStarted? || entry.step.event.RunFailed?)
    ensures entry.step.event.RunStarted? ==> Observe(plan, m, entry).phase == Ready(plan.startPaused)
    ensures entry.step.event.RunFailed? ==> Observe(plan, m, entry).phase.Ended?
  {
    hide Inflow, FoldInputs, TakenEdges, EdgesFrom;
  }

  lemma SecondStep(plan: Plan, m: Monitor, entry: Entry)
    requires m.phase.Ready? && !Observe(plan, m, entry).phase.Rejected?
    ensures entry.step == Step.Emit(RunPaused) <==> m.phase.pauseDue
  {
    hide Inflow, FoldInputs, TakenEdges, EdgesFrom;
  }

  /** A run that begins says so first, and then at once that it is paused, exactly if it is to start paused. */
  lemma RunsAnnounceThePause(plan: Plan, scope: Json.Scope, trace: seq<Entry>)
    requires Accepted(plan, scope, trace) && |trace| >= 2
    ensures trace[0].step == Step.Emit(RunStarted(plan.doc.id))
    ensures trace[1].step == Step.Emit(RunPaused) <==> plan.startPaused
  {
    hide Observe;
    AcceptedUpTo(plan, scope, trace, 1);
    AcceptedUpTo(plan, scope, trace, 2);
    var one, two := trace[..1], trace[..2];
    assert one[..|one| - 1] == [] && two[..|two| - 1] == one;
    assert Replay(plan, scope, one) == Observe(plan, Begin(plan, scope), trace[0]);
    assert Replay(plan, scope, two) == Observe(plan, Replay(plan, scope, one), trace[1]);
    FirstStep(plan, Begin(plan, scope), trace[0]);
    if trace[0].step.event.RunFailed? {
      NothingAfterTheEnd(plan, Replay(plan, scope, trace[..1]), trace[1]);
    } else {
      NamedInTheStart(plan, Begin(plan, scope), trace[0]);
      SecondStep(plan, Replay(plan, scope, trace[..1]), trace[1]);
    }
  }

  lemma NamedInTheStart(plan: Plan, m: Monitor, entry: Entry)
    requires entry.step.Emit? && entry.step.event.RunStarted? && !Observe(plan, m, entry).phase.Rejected?
    ensures entry.step.event.workflowId == plan.doc.id
  {
  }

  lemma NothingAfterTheEnd(plan: Plan, m: Monitor, entry: Entry)
    requires m.phase.Ended?
    ensures Observe(plan, m, entry).phase.Rejected?
  {
    hide Inflow, FoldInputs, TakenEdges, EdgesFrom;
  }

  /** What a node's result variable receives. */
  predicate Receives(plan: Plan, node: Node, outputs: Json.Scope, value: Json.Value) {
    match node.resultPort
    case Some(port) => value == if port in outputs then outputs[port] else Json.Null
    case None =>
      && ("out" in outputs ==> value == outputs["out"])
      && ("out" !in outputs && outputs != map[] ==> value == plan.firstOutput(outputs))
      && (outputs == map[] ==> value == Json.Null)
  }

  /** The scope after a success: what the executor published, the result variable, and the rest as it was. */
  ghost predicate ScopeAfter(plan: Plan, node: Node, output: Output, before: Json.Scope, after: Json.Scope) {
    forall n ::
      if node.resultVar == Some(n) && n != "" then n in after && Receives(plan, node, output.outputs, after[n])
      else if n in output.variables then n in after && after[n] == output.variables[n]
      else (n in after <==> n in before) && (n in before ==> after[n] == before[n])
  }

  lemma PublishIsExact(plan: Plan, node: Node, output: Output, scope: Json.Scope)
    ensures ScopeAfter(plan, node, output, scope, Publish(plan, node, output, scope))
  {
  }

  lemma FinishTells(plan: Plan, m: Monitor, e: Event, c: bool)
    requires e.NodeFinished? && !OnEvent(plan, m, e, c).phase.Rejected?
    ensures m.phase.Window? && m.phase.last.Some? && m.phase.last.value.Succeeded?
    ensures
      var output, after := m.phase.last.value.output, OnEvent(plan, m, e, c).scope;
      && e.nodeId == m.phase.node.id && e.outputs == output.outputs && e.variablesAfter == plan.redact(after)
      && ScopeAfter(plan, m.phase.node, output, m.scope, after)
  {
    hide ScopeAfter, Publish;
    if m.phase.Window? && m.phase.last.Some? && m.phase.last.value.Succeeded? {
      PublishIsExact(plan, m.phase.node, m.phase.last.value.output, m.scope);
    }
  }

  /**
   * A success is reported as the executor returned it: its outputs in the event, its variables and the
   * node's result variable in the scope, the rest of the scope as it was.
   */
  lemma SuccessesAreReported(plan: Plan, scope: Json.Scope, trace: seq<Entry>, i: nat) returns (node: Node, output: Output)
    requires Accepted(plan, scope, trace) && i < |trace| && trace[i].step.Emit? && trace[i].step.event.NodeFinished?
    ensures
      var e := trace[i].step.event;
      var before, after := Replay(plan, scope, trace[..i]).scope, Replay(plan, scope, trace[..i + 1]).scope;
      && e.nodeId == LastVisit(trace[..i]) && DeclaredAs(plan.doc, e.nodeId, node)
      && CancelLaws.TallyOf(trace[..i]).last == Some(Attempted.Succeeded(output))
      && e.outputs == output.outputs && e.variablesAfter == plan.redact(after)
      && ScopeAfter(plan, node, output, before, after)
  {
    hide Observe, OnEvent, VisitedIn, DeclaredAs, ScopeAfter, CancelLaws.TallyOf;
    AcceptedUpTo(plan, scope, trace, i);
    AcceptedUpTo(plan, scope, trace, i + 1);
    assert trace[..i + 1][..i] == trace[..i];
    var m, e := Replay(plan, scope, trace[..i]), trace[i].step.event;
    EventObserved(plan, m, e, trace[i].cancelled);
    FinishTells(plan, m, e, trace[i].cancelled);
    CancelLaws.RunIsTallied(plan, scope, trace[..i]);
    NodeAtHand(plan, scope, trace[..i]);
    node, output := m.phase.node, m.phase.last.value.output;
  }

  /** What an executor's failure leaves in the scope. */
  ghost predicate Noted(e: Event, before: Json.Scope, after: Json.Scope)
    requires e.NodeFailed?
  {
    after == before["last_error" := Json.Obj(map[
      "code" := Json.Str(e.code), "message" := Json.Str(e.message),
      "node_id" := Json.Str(e.nodeId), "retryable" := Json.Bool(e.retryable)])]
  }

  /** Why a node fails without having started. */
  ghost predicate FailsUnstarted(plan: Plan, node: Node, s: Json.Scope, e: Event)
    requires e.NodeFailed?
  {
    || e.code == "E_PERMISSION_DENIED"
    || (e.code == "E_INVALID_CONFIG" && node.enabled && node.condition.Some? && plan.guard(node.condition.value, s).Malformed?)
  }

  lemma FailureTells(plan: Plan, m: Monitor, e: Event, c: bool, ms: seq<Event>, activated: seq<Event>)
    requires e.NodeFailed? && !OnEvent(plan, m, e, c).phase.Rejected? && Staged(plan, m, ms, activated)
    ensures Busy(m.phase) && e.nodeId == m.phase.node.id && e.variablesAfter == plan.redact(OnEvent(plan, m, e, c).scope)
    ensures
      var after := OnEvent(plan, m, e, c).scope;
      if ms == [] then after == m.scope && FailsUnstarted(plan, m.phase.node, m.scope, e)
      else
        && m.phase.Window? && m.phase.last.Some? && m.phase.last.value.Errored? && Noted(e, m.scope, after)
        && var error := m.phase.last.value.error;
           e.code == error.Code() && e.message == error.Message() && e.retryable == error.Retryable()
  {
    hide ConditionError, Retry.KeepsRetrying, NodeError.Message, NodeError.Retryable, FailureEdge, DueAfter;
    match m.phase
    case At(_, _) =>
    case Denied(_, _) =>
    case Window(_, _, _, _) =>
    case _ =>
  }

  /**
   * A failure is reported as it came: before the start, from the condition or from policy, and the scope is
   * as it was; afterwards, as the executor returned it, and `last_error` in the scope says the same.
   */
  lemma FailuresAreReported(plan: Plan, scope: Json.Scope, trace: seq<Entry>, i: nat) returns (node: Node)
    requires Accepted(plan, scope, trace) && i < |trace| && trace[i].step.Emit? && trace[i].step.event.NodeFailed?
    ensures
      var e, last := trace[i].step.event, CancelLaws.TallyOf(trace[..i]).last;
      var before, after := Replay(plan, scope, trace[..i]).scope, Replay(plan, scope, trace[..i + 1]).scope;
      && e.nodeId == LastVisit(trace[..i]) && DeclaredAs(plan.doc, e.nodeId, node) && e.variablesAfter == plan.redact(after)
      && (if Milestones(SinceVisit(trace[..i])) == [] then after == before && FailsUnstarted(plan, node, before, e)
          else
            && Noted(e, before, after) && last.Some? && last.value.Errored?
            && e.code == last.value.error.Code() && e.message == last.value.error.Message()
            && e.retryable == last.value.error.Retryable())
  {
    hide Observe, OnEvent, VisitedIn, DeclaredAs, CancelLaws.TallyOf, Milestones, ActivationsIn, Staged, Noted, FailsUnstarted,
         NodeError.Code, NodeError.Message, NodeError.Retryable, SinceVisit;
    AcceptedUpTo(plan, scope, trace, i);
    AcceptedUpTo(plan, scope, trace, i + 1);
    assert trace[..i + 1][..i] == trace[..i];
    var m, e, since := Replay(plan, scope, trace[..i]), trace[i].step.event, SinceVisit(trace[..i]);
    EventObserved(plan, m, e, trace[i].cancelled);
    VisitsAreStaged(plan, scope, trace[..i]);
    FailureTells(plan, m, e, trace[i].cancelled, Milestones(since), ActivationsIn(since));
    CancelLaws.RunIsTallied(plan, scope, trace[..i]);
    NodeAtHand(plan, scope, trace[..i]);
    node := m.phase.node;
  }

  lemma VisitStaged(plan: Plan, m: Monitor, entry: Entry)
    requires entry.step.Visit? && !Observe(plan, m, entry).phase.Rejected?
    ensures Staged(plan, Observe(plan, m, entry), Milestones([]), ActivationsIn([]))
  {
    hide Observe;
    VisitOnly(plan, m, entry);
  }
}
