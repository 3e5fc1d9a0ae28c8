// Activation: a node is visited only after a chain of published activations from the entry, and a
// pass that leaves nothing behind has computed exactly the nodes those activations reach.
module ActivationLaws {
  import opened Digraph
  import opened Workflow
  import opened Events
  import opened RunTrace
  import opened RunSteps
  import opened RunLaws
  import Json
  import Retry

  /** The arcs a stream says were activated, in order. */
  function LogArcs(events: seq<Event>): seq<Arc> {
    if events == [] then []
    else
      var last := events[|events| - 1];
      LogArcs(events[..|events| - 1]) + (if last.EdgeActivated? then [(last.source, last.target)] else [])
  }

  ghost predicate ControlEdge(edges: seq<Edge>, s: Id, t: Id) {
    exists e :: e in edges && e.kind == Control && e.source == s && e.target == t
  }

  ghost predicate FromNode(edges: seq<Edge>, pending: seq<Edge>, id: Id) {
    forall e :: e in pending ==> e in edges && e.kind == Control && e.source == id
  }

  /** What holds of activations and visits after every step. */
  ghost predicate Chained(plan: Plan, m: Monitor) {
    && plan.entry in m.activated
    && (forall n :: n in m.activated ==> Reaches(m.activations, plan.entry, n))
    && (forall a :: a in m.activations ==>
          a.0 in m.visited && a.1 in m.activated && ControlEdge(plan.doc.edges, a.0, a.1))
    && (forall n :: n in m.visited ==> n in m.activated && n in Ids(plan.doc.nodes))
    && (Busy(m.phase) || Underway(m.phase) ==> NodeOf(m.phase).id in m.visited)
    && (m.phase.Routing? ==> FromNode(plan.doc.edges, m.phase.pending, m.phase.node.id))
  }

  lemma {:induction false} TakenAreEdges(plan: Plan, edges: seq<Edge>, scope: Json.Scope, ok: bool)
    ensures forall e :: e in TakenEdges(plan, edges, scope, ok) ==> e in edges
  {
    hide EdgeTaken;
    if edges != [] {
      TakenAreEdges(plan, edges[1..], scope, ok);
    }
  }

  lemma DueFromNode(plan: Plan, m: Monitor, node: Node, ok: bool)
    ensures FromNode(plan.doc.edges, Due(plan, m, node, ok), node.id)
  {
    hide EdgeTaken, TakenEdges;
    TakenAreEdges(plan, EdgesFrom(plan.doc.edges, node.id), m.scope, ok);
    EdgesFromExact(plan.doc.edges, node.id);
  }

  /** Everything the invariant mentions except the phase is unchanged. */
  ghost predicate SameChains(m: Monitor, n: Monitor) {
    && n.activated == m.activated && n.activations == m.activations && n.visited == m.visited
    && (Busy(n.phase) || Underway(n.phase) ==>
          (Busy(m.phase) || Underway(m.phase)) && NodeOf(n.phase) == NodeOf(m.phase))
    && (n.phase.Routing? ==> m.phase.Routing? && n.phase.pending == m.phase.pending)
  }

  lemma ChainsCarryOver(plan: Plan, m: Monitor, n: Monitor)
    requires Chained(plan, m) && SameChains(m, n)
    ensures Chained(plan, n)
  {
    hide Reaches, ControlEdge;
  }

  lemma VisitChains(plan: Plan, m: Monitor, id: Id)
    requires Chained(plan, m) && !OnVisit(plan, m, id).phase.Rejected?
    ensures Chained(plan, OnVisit(plan, m, id))
  {
    hide Reaches, ControlEdge, FromNode;
  }

  lemma RouteChains(plan: Plan, m: Monitor, ok: bool)
    requires Chained(plan, m) && !OnRoute(plan, m, ok).phase.Rejected?
    ensures Chained(plan, OnRoute(plan, m, ok))
  {
    hide Reaches, ControlEdge, FromNode, TakenEdges, EdgesFrom;
    if m.phase.At? || m.phase.Finished? || m.phase.Broken? {
      DueFromNode(plan, m, m.phase.node, ok);
    }
  }

  lemma ActivationChains(plan: Plan, m: Monitor, e: Event)
    requires Chained(plan, m) && e.EdgeActivated? && !OnActivated(m, e).phase.Rejected?
    ensures Chained(plan, OnActivated(m, e))
  {
    var n := OnActivated(m, e);
    var edge := m.phase.pending[0];
    assert edge in m.phase.pending;
    assert ControlEdge(plan.doc.edges, edge.source, edge.target);
    forall x | x in m.activated ensures Reaches(n.activations, plan.entry, x) {
      ReachesMonotone(m.activations, n.activations, plan.entry, x);
    }
    assert (edge.source, edge.target) == n.activations[|m.activations|];
    ReachesStep(n.activations, plan.entry, edge.source, edge.target);
  }

  lemma UnpublishedKeepsChains(plan: Plan, m: Monitor, entry: Entry)
    requires !Observe(plan, m, entry).phase.Rejected?
    requires !entry.step.Emit? && !entry.step.Visit? && !entry.step.Route?
    ensures SameChains(m, Observe(plan, m, entry))
  {
    hide Observe;
    if ClearsTheWay(entry.step) {
      ClearanceOnly(plan, m, entry);
    } else {
      WorkOnly(plan, m, entry);
    }
  }

  lemma FailureKeepsChains(plan: Plan, m: Monitor, e: Event)
    requires e.NodeFailed? && !OnFailed(plan, m, e).phase.Rejected?
    ensures SameChains(m, OnFailed(plan, m, e))
  {
    hide ConditionError, LastError, FailureEvent, Retry.KeepsRetrying;
    match m.phase
    case At(_, _) =>
    case Denied(_, _) =>
    case Window(_, _, _, _) =>
    case _ =>
  }

  lemma TerminalKeepsChains(plan: Plan, m: Monitor, e: Event, c: bool)
    requires IsTerminal(e) && !OnTerminal(plan, m, e, c).phase.Rejected?
    ensures SameChains(m, OnTerminal(plan, m, e, c))
  {
    hide MayCancel, MayFail;
  }

  lemma PublishedKeepsChains(plan: Plan, m: Monitor, e: Event, c: bool)
    requires !OnEvent(plan, m, e, c).phase.Rejected? && !e.EdgeActivated?
    ensures SameChains(m, OnEvent(plan, m, e, c))
  {
    hide OnTerminal, OnFailed, OnActivated, Inflow, FoldInputs, Publish, ConditionHolds, Transfer, SameChains;
    match e
    case NodeFailed(_, _, _, _, _) => FailureKeepsChains(plan, m, e);
    case RunCancelled(_) => TerminalKeepsChains(plan, m, e, c);
    case RunCompleted(_) => TerminalKeepsChains(plan, m, e, c);
    case RunFailed(_, _) => TerminalKeepsChains(plan, m, e, c);
    case _ => OrdinaryKeepsChains(plan, m, e, c);
  }

  lemma OrdinaryKeepsChains(plan: Plan, m: Monitor, e: Event, c: bool)
    requires !OnEvent(plan, m, e, c).phase.Rejected?
    requires !e.EdgeActivated? && !e.NodeFailed? && !IsTerminal(e)
    ensures SameChains(m, OnEvent(plan, m, e, c))
  {
    hide OnTerminal, OnFailed, OnActivated, OnStarted, OnTransferred, OnPaused, Publish;
    match e
    case NodeStarted(_, _, _, _, _, _, _) => StartKeepsChains(plan, m, e);
    case DataTransferred(_, _, _, _, _, _) => TransferKeepsChains(plan, m, e);
    case RunPaused => PauseKeepsChains(plan, m);
    case _ =>
  }

  lemma StartKeepsChains(plan: Plan, m: Monitor, e: Event)
    requires e.NodeStarted? && !OnStarted(plan, m, e).phase.Rejected?
    ensures SameChains(m, OnStarted(plan, m, e))
  {
    hide ConditionHolds, Inflow, FoldInputs;
  }

  lemma TransferKeepsChains(plan: Plan, m: Monitor, e: Event)
    requires e.DataTransferred? && !OnTransferred(plan, m, e).phase.Rejected?
    ensures SameChains(m, OnTransferred(plan, m, e))
  {
    hide Inflow, Transfer;
  }

  lemma PauseKeepsChains(plan: Plan, m: Monitor)
    requires !OnPaused(plan, m).phase.Rejected?
    ensures SameChains(m, OnPaused(plan, m))
  {
  }

  lemma EntryChained(plan: Plan, scope: Json.Scope)
    ensures Chained(plan, Begin(plan, scope))
  {
    ReachesSelf([], plan.entry);
  }

  lemma StepChained(plan: Plan, m: Monitor, entry: Entry)
    requires Chained(plan, m) && !Observe(plan, m, entry).phase.Rejected?
    ensures Chained(plan, Observe(plan, m, entry))
  {
    hide Chained, OnVisit, OnRoute, OnActivated, OnEvent, OnPoll, OnCall, OnReturn, OnLeave, OnSkip, OnDeny;
    match entry.step
    case Visit(id) => VisitChains(plan, m, id);
    case Route(ok) => RouteChains(plan, m, ok);
    case Emit(e) => EventChained(plan, m, e, entry.cancelled);
    case _ =>
      UnpublishedKeepsChains(plan, m, entry);
      ChainsCarryOver(plan, m, Observe(plan, m, entry));
  }

  lemma EventChained(plan: Plan, m: Monitor, e: Event, c: bool)
    requires Chained(plan, m) && !OnEvent(plan, m, e, c).phase.Rejected?
    ensures Chained(plan, OnEvent(plan, m, e, c))
  {
    hide Chained, OnActivated, OnStarted, OnFinished, OnFailed, OnTransferred, OnTerminal, OnPaused;
    if e.EdgeActivated? {
      ActivationChains(plan, m, e);
    } else {
      PublishedKeepsChains(plan, m, e, c);
      ChainsCarryOver(plan, m, OnEvent(plan, m, e, c));
    }
  }

  lemma ArcsFollowStep(plan: Plan, m: Monitor, entry: Entry, events: seq<Event>)
    requires !Observe(plan, m, entry).phase.Rejected? && m.activations == LogArcs(events)
    ensures Observe(plan, m, entry).activations ==
      LogArcs(if entry.step.Emit? then events + [entry.step.event] else events)
  {
    if entry.step.Emit? {
      var e := entry.step.event;
      assert (events + [e])[..|events|] == events;
      if e.EdgeActivated? {
        hide OnStarted, OnFinished, OnFailed, OnTransferred, OnTerminal, OnPaused;
      } else {
        hide OnEvent, SameChains;
        EventObserved(plan, m, e, entry.cancelled);
        PublishedKeepsChains(plan, m, e, entry.cancelled);
        SameArcs(m, OnEvent(plan, m, e, entry.cancelled));
      }
    } else {
      hide Observe;
      if ClearsTheWay(entry.step) {
        ClearanceOnly(plan, m, entry);
      } else if Works(entry.step) {
        WorkOnly(plan, m, entry);
      } else {
        VisitOnly(plan, m, entry);
      }
    }
  }

  lemma SameArcs(m: Monitor, n: Monitor)
    requires SameChains(m, n)
    ensures n.activations == m.activations
  {
  }

  lemma {:induction false} RunIsChained(plan: Plan, scope: Json.Scope, trace: seq<Entry>)
    requires Accepted(plan, scope, trace)
    ensures Chained(plan, Replay(plan, scope, trace))
    ensures Replay(plan, scope, trace).activations == LogArcs(Emitted(trace))
  {
    hide Observe, OnEvent, Chained;
    if trace == [] {
      EntryChained(plan, scope);
    } else {
      AcceptedPrefix(plan, scope, trace);
      var init, last := trace[..|trace| - 1], trace[|trace| - 1];
      RunIsChained(plan, scope, init);
      SnocEvents(trace);
      StepChained(plan, Replay(plan, scope, init), last);
      ArcsFollowStep(plan, Replay(plan, scope, init), last, Emitted(init));
    }
  }

  /**
   * No node is visited before a chain of EdgeActivated events has led to it from the entry; applied to
   * a prefix of a trace, this speaks of the events published before that visit. Every activation
   * follows a control edge of the document out of a visited node.
   */
  lemma VisitsFollowActivations(plan: Plan, scope: Json.Scope, trace: seq<Entry>, id: Id)
    requires Accepted(plan, scope, trace)
    ensures id in Replay(plan, scope, trace).visited ==> Reaches(LogArcs(Emitted(trace)), plan.entry, id)
    ensures forall a :: a in LogArcs(Emitted(trace)) ==>
      a.0 in Replay(plan, scope, trace).visited && ControlEdge(plan.doc.edges, a.0, a.1)
  {
    hide Observe, Reaches, ControlEdge;
    RunIsChained(plan, scope, trace);
  }

  /**
   * The activation fixpoint: when every activated node that is declared has been visited, the visited
   * nodes are exactly the declared nodes reachable from the entry along the published activations.
   */
  lemma OnePassComputesTheFixpoint(plan: Plan, scope: Json.Scope, trace: seq<Entry>, id: Id)
    requires Accepted(plan, scope, trace)
    requires
      var m := Replay(plan, scope, trace);
      forall n :: n in m.activated && n in Ids(plan.doc.nodes) ==> n in m.visited
    ensures id in Ids(plan.doc.nodes) ==>
      (id in Replay(plan, scope, trace).visited <==> Reaches(LogArcs(Emitted(trace)), plan.entry, id))
  {
    hide Observe;
    RunIsChained(plan, scope, trace);
    var m := Replay(plan, scope, trace);
    if Reaches(m.activations, plan.entry, id) {
      var p :| IsWalkFromTo(m.activations, p, plan.entry, id);
      ClosedSetCatchesWalk(m.activations, m.activated, p);
    }
  }
}
