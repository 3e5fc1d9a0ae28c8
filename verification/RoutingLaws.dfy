// Which edges a stream shows as activated: exactly those due after each node, in document order.
module RoutingLaws {
  import opened Digraph
  import opened EndLaws
  import opened Events
  import opened OrderedSets
  import opened RunLaws
  import opened RunSteps
  import opened RunTrace
  import opened Workflow
  import CancelLaws
  import Json

  /** What a trace shows of the routing it is in: the side taken, and the activations published since. */
  datatype Course = Elsewhere | Following(ok: bool, shown: seq<Event>)

  function CourseStep(r: Course, step: Step): Course {
    match step
    case Route(ok) => Following(ok, [])
    case Leave => Elsewhere
    case Visit(_) => Elsewhere
    case Emit(e) => if e.EdgeActivated? && r.Following? then r.(shown := r.shown + [e]) else r
    case _ => r
  }

  function CourseOf(trace: seq<Entry>): Course {
    if trace == [] then Elsewhere else CourseStep(CourseOf(trace[..|trace| - 1]), trace[|trace| - 1].step)
  }

  function Activations(edges: seq<Edge>): seq<Event> {
    seq(|edges|, i requires 0 <= i < |edges| => EdgeActivated(edges[i].id, edges[i].source, edges[i].target, edges[i].branch))
  }

  /**
   * The edge is followed after the node: a control edge out of it, of the right branch, whose guard, if it
   * has one, evaluates to something truthy.
   */
  predicate Fires(plan: Plan, e: Edge, id: Id, scope: Json.Scope, ok: bool) {
    && e.kind == Control && e.source == id
    && (match e.branch case Always => true case Success => ok case Failure => !ok)
    && (e.condition.Some? ==> plan.guard(e.condition.value, scope) == Verdict(true))
  }

  function Firing(plan: Plan, id: Id, scope: Json.Scope, ok: bool): seq<Edge> {
    Kept(plan.doc.edges, (e: Edge) => Fires(plan, e, id, scope, ok))
  }

  /** What the engine takes of a node's edges are the document's edges that fire, in document order. */
  lemma {:induction false} TakenIsKept(plan: Plan, edges: seq<Edge>, id: Id, scope: Json.Scope, ok: bool)
    ensures TakenEdges(plan, EdgesFrom(edges, id), scope, ok) == Kept(edges, (e: Edge) => Fires(plan, e, id, scope, ok))
  {
    if edges != [] {
      var head, rest := edges[0], edges[1..];
      assert edges == [head] + rest;
      TakenIsKept(plan, rest, id, scope, ok);
      KeptCons(head, rest, (e: Edge) => Fires(plan, e, id, scope, ok));
      TakenHead(plan, head, EdgesFrom(rest, id), scope, ok);
      assert [] + EdgesFrom(rest, id) == EdgesFrom(rest, id);
    }
  }

  lemma TakenHead(plan: Plan, head: Edge, rest: seq<Edge>, scope: Json.Scope, ok: bool)
    ensures TakenEdges(plan, [head] + rest, scope, ok) ==
      (if EdgeTaken(plan, head, scope, ok) then [head] else []) + TakenEdges(plan, rest, scope, ok)
  {
    assert ([head] + rest)[1..] == rest;
  }

  /** What must be published after a node: that each of its firing edges was activated. */
  function DueAfter(plan: Plan, id: Id, scope: Json.Scope, ok: bool): seq<Event> {
    Activations(Firing(plan, id, scope, ok))
  }

  ghost predicate InRoute(plan: Plan, m: Monitor, r: Course) {
    && (m.phase.Routing? ==>
          && r.Following? && r.ok == m.phase.ok
          && r.shown + Activations(m.phase.pending) == DueAfter(plan, m.phase.node.id, m.scope, m.phase.ok))
    && (!m.phase.Routing? && !m.phase.Ended? ==> r.Elsewhere?)
  }

  lemma RouteBegins(plan: Plan, m: Monitor, ok: bool)
    requires !OnRoute(plan, m, ok).phase.Rejected?
    ensures
      var n := OnRoute(plan, m, ok);
      && n.phase.Routing? && n.phase.ok == ok && n.scope == m.scope
      && n.phase.pending == Firing(plan, n.phase.node.id, m.scope, ok)
  {
    hide TakenEdges, EdgesFrom, HasFailureRoute, Firing;
    if Busy(m.phase) || Underway(m.phase) {
      TakenIsFiring(plan, m.phase.node.id, m.scope, ok);
    }
  }

  lemma TakenIsFiring(plan: Plan, id: Id, scope: Json.Scope, ok: bool)
    ensures TakenEdges(plan, EdgesFrom(plan.doc.edges, id), scope, ok) == Firing(plan, id, scope, ok)
  {
    TakenIsKept(plan, plan.doc.edges, id, scope, ok);
  }

  lemma RouteObserved(plan: Plan, m: Monitor, entry: Entry)
    requires entry.step.Route?
    ensures Observe(plan, m, entry) == OnRoute(plan, m, entry.step.ok)
  {
    hide OnRoute;
  }

  lemma StepInRoute(plan: Plan, m: Monitor, entry: Entry, r: Course)
    requires InRoute(plan, m, r) && !entry.step.Emit? && !Observe(plan, m, entry).phase.Rejected?
    ensures InRoute(plan, Observe(plan, m, entry), CourseStep(r, entry.step))
  {
    hide Observe, OnRoute, TakenEdges, EdgesFrom, MayCall;
    if ClearsTheWay(entry.step) {
      ClearanceOnly(plan, m, entry);
    } else if entry.step.Route? {
      RouteObserved(plan, m, entry);
      RouteBegins(plan, m, entry.step.ok);
    } else if Works(entry.step) {
      WorkOnly(plan, m, entry);
    } else {
      VisitOnly(plan, m, entry);
    }
  }

  lemma ActivationInRoute(plan: Plan, m: Monitor, e: Event, r: Course)
    requires InRoute(plan, m, r) && e.EdgeActivated? && !OnActivated(m, e).phase.Rejected?
    ensures InRoute(plan, OnActivated(m, e), CourseStep(r, Emit(e)))
    ensures m.phase.Routing? && r.Following?
    ensures r.shown + [e] <= DueAfter(plan, m.phase.node.id, m.scope, m.phase.ok)
  {
    hide TakenEdges, EdgesFrom;
    var pending := m.phase.pending;
    assert Activations(pending) == [e] + Activations(pending[1..]);
    assert (r.shown + [e]) + Activations(pending[1..]) == r.shown + Activations(pending);
  }

  /** Routing is neither entered nor changed by the event. */
  predicate RouteKept(m: Monitor, n: Monitor) {
    (n.phase.Routing? ==> n.phase == m.phase && n.scope == m.scope) && (m.phase.Routing? ==> n.phase.Routing? || n.phase.Ended?)
    && (m.phase.Ended? ==> n.phase.Ended?)
  }

  lemma ChatterKeepsRoute(plan: Plan, m: Monitor, e: Event, c: bool)
    requires !OnEvent(plan, m, e, c).phase.Rejected? && (IsChatter(e) || e.RunStarted?)
    ensures RouteKept(m, OnEvent(plan, m, e, c))
  {
  }

  lemma EventKeepsRoute(plan: Plan, m: Monitor, e: Event, c: bool)
    requires !e.EdgeActivated? && !OnEvent(plan, m, e, c).phase.Rejected?
    ensures RouteKept(m, OnEvent(plan, m, e, c))
  {
    hide OnStarted, OnFinished, OnTransferred, OnFailed, OnTerminal, OnPaused;
    match e
    case NodeStarted(_, _, _, _, _, _, _) => StartShape(plan, m, e);
    case NodeFinished(_, _, _) => FinishShape(plan, m, e);
    case DataTransferred(_, _, _, _, _, _) => TransferShape(plan, m, e);
    case RunPaused => PauseShape(plan, m);
    case NodeFailed(_, _, _, _, _) =>
      CancelLaws.FailureLeaves(plan, m, e);
      FailureStarts(plan, m, e);
    case RunCancelled(_) => CancelLaws.TerminalEnds(plan, m, e, c);
    case RunCompleted(_) => CancelLaws.TerminalEnds(plan, m, e, c);
    case RunFailed(_, _) => CancelLaws.TerminalEnds(plan, m, e, c);
    case _ => ChatterKeepsRoute(plan, m, e, c);
  }

  lemma EventInRoute(plan: Plan, m: Monitor, e: Event, c: bool, r: Course)
    requires InRoute(plan, m, r) && !OnEvent(plan, m, e, c).phase.Rejected?
    ensures InRoute(plan, OnEvent(plan, m, e, c), CourseStep(r, Emit(e)))
  {
    hide DueAfter, Activations;
    if e.EdgeActivated? {
      hide InRoute, OnActivated;
      ActivationInRoute(plan, m, e, r);
    } else {
      hide OnEvent;
      EventKeepsRoute(plan, m, e, c);
    }
  }

  lemma {:induction false} RoutesAreShown(plan: Plan, scope: Json.Scope, trace: seq<Entry>)
    requires Accepted(plan, scope, trace)
    ensures InRoute(plan, Replay(plan, scope, trace), CourseOf(trace))
  {
    hide Observe, OnEvent, InRoute, CourseStep;
    if trace == [] {
      NothingRouted(plan, scope);
    } else {
      AcceptedPrefix(plan, scope, trace);
      var init, last := trace[..|trace| - 1], trace[|trace| - 1];
      RoutesAreShown(plan, scope, init);
      if last.step.Emit? {
        EventObserved(plan, Replay(plan, scope, init), last.step.event, last.cancelled);
        EventInRoute(plan, Replay(plan, scope, init), last.step.event, last.cancelled, CourseOf(init));
      } else {
        StepInRoute(plan, Replay(plan, scope, init), last, CourseOf(init));
      }
    }
  }

  lemma NothingRouted(plan: Plan, scope: Json.Scope)
    ensures InRoute(plan, Begin(plan, scope), Elsewhere)
  {
  }

  /** The node a routing belongs to is the one visited last. */
  lemma RoutedNode(plan: Plan, scope: Json.Scope, trace: seq<Entry>)
    requires Accepted(plan, scope, trace) && Replay(plan, scope, trace).phase.Routing?
    ensures
      var visits := VisitedIn(trace);
      visits != [] && visits[|visits| - 1] == Replay(plan, scope, trace).phase.node.id
  {
    hide Observe, VisitedIn;
    EverythingIsCounted(plan, scope, trace);
    VisitsAreRecorded(plan, scope, trace);
  }

  /** When the engine leaves a node behind, or the run fails over it, its due edges are all published, and no others. */
  lemma DueEdgesArePublished(plan: Plan, scope: Json.Scope, trace: seq<Entry>, j: nat)
    requires Accepted(plan, scope, trace) && j < |trace|
    requires trace[j].step.Leave? || (trace[j].step.Emit? && IsTerminal(trace[j].step.event) && CourseOf(trace[..j]).Following?)
    ensures
      var r := CourseOf(trace[..j]);
      r.Following? && r.shown == DueAfter(plan, LastVisit(trace[..j]), Replay(plan, scope, trace[..j]).scope, r.ok)
  {
    hide Observe, CourseOf, DueAfter, VisitedIn;
    AcceptedUpTo(plan, scope, trace, j);
    AcceptedUpTo(plan, scope, trace, j + 1);
    assert trace[..j + 1][..j] == trace[..j];
    var m := Replay(plan, scope, trace[..j]);
    RoutesAreShown(plan, scope, trace[..j]);
    RoutingIsOver(plan, m, trace[j], CourseOf(trace[..j]));
    RoutedNode(plan, scope, trace[..j]);
    assert Activations(m.phase.pending) == [];
  }

  lemma RoutingIsOver(plan: Plan, m: Monitor, entry: Entry, r: Course)
    requires InRoute(plan, m, r) && !Observe(plan, m, entry).phase.Rejected?
    requires entry.step.Leave? || (entry.step.Emit? && IsTerminal(entry.step.event) && r.Following?)
    ensures m.phase.Routing? && m.phase.pending == []
  {
    hide DueAfter, Activations;
    if entry.step.Emit? {
      hide Observe, OnTerminal;
      EventObserved(plan, m, entry.step.event, entry.cancelled);
      TerminalFromRouting(plan, m, entry.step.event, entry.cancelled);
    } else {
      hide OnEvent;
    }
  }

  lemma TerminalFromRouting(plan: Plan, m: Monitor, e: Event, c: bool)
    requires IsTerminal(e) && !OnTerminal(plan, m, e, c).phase.Rejected?
    ensures !m.phase.Ended? && (m.phase.Routing? ==> m.phase.pending == [])
  {
    hide ConditionHolds, HasFailureRoute, PastBreakpoint;
  }

  /** An edge is published as activated only while its node is routed, and only when it is the next one due. */
  lemma OnlyDueEdgesArePublished(plan: Plan, scope: Json.Scope, trace: seq<Entry>, j: nat)
    requires Accepted(plan, scope, trace) && j < |trace| && trace[j].step.Emit? && trace[j].step.event.EdgeActivated?
    ensures
      var r := CourseOf(trace[..j]);
      && r.Following?
      && r.shown + [trace[j].step.event] <=
         DueAfter(plan, LastVisit(trace[..j]), Replay(plan, scope, trace[..j]).scope, r.ok)
  {
    hide Observe, CourseOf, DueAfter, VisitedIn, OnActivated, InRoute;
    AcceptedUpTo(plan, scope, trace, j);
    AcceptedUpTo(plan, scope, trace, j + 1);
    assert trace[..j + 1][..j] == trace[..j];
    var m, e := Replay(plan, scope, trace[..j]), trace[j].step.event;
    RoutesAreShown(plan, scope, trace[..j]);
    EventObserved(plan, m, e, trace[j].cancelled);
    ActivationInRoute(plan, m, e, CourseOf(trace[..j]));
    FollowedSide(plan, m, CourseOf(trace[..j]));
    RoutedNode(plan, scope, trace[..j]);
  }

  lemma FollowedSide(plan: Plan, m: Monitor, r: Course)
    requires InRoute(plan, m, r) && m.phase.Routing?
    ensures r.Following? && r.ok == m.phase.ok
  {
  }
}
