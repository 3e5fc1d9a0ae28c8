// How a run that completes came to its end, and which nodes it has visited by then.
module EndLaws {
  import opened ActivationLaws
  import opened Digraph
  import opened Events
  import opened GateLaws
  import opened RunLaws
  import opened RunSteps
  import opened RunTrace
  import opened Workflow
  import CancelLaws
  import Json
  import Retry

  predicate IsEnd(doc: Document, id: Id) {
    Lookup(doc.nodes, id).Some? && Lookup(doc.nodes, id).value.nodeType == "core.End"
  }

  /** A `core.End` has finished in the stream. */
  ghost predicate EndFinished(doc: Document, events: seq<Event>) {
    exists e :: e in events && e.NodeFinished? && IsEnd(doc, e.nodeId)
  }

  /** The acceptor has seen a `core.End` finish and not the end of the run. */
  predicate EndInSight(phase: Phase) {
    || (phase.Finished? && phase.node.nodeType == "core.End")
    || (phase.Routing? && phase.ok && phase.ran && phase.node.nodeType == "core.End")
    || phase.Closing?
  }

  ghost predicate EndAgrees(plan: Plan, phase: Phase, events: seq<Event>) {
    !phase.Ended? ==> (EndInSight(phase) <==> EndFinished(plan.doc, events))
  }

  lemma EndGrows(doc: Document, events: seq<Event>, e: Event)
    ensures EndFinished(doc, events + [e]) <==> EndFinished(doc, events) || (e.NodeFinished? && IsEnd(doc, e.nodeId))
  {
    hide IsEnd;
    assert e in events + [e];
    if EndFinished(doc, events) {
      var x :| x in events && x.NodeFinished? && IsEnd(doc, x.nodeId);
      assert x in events + [e];
    }
  }

  lemma RouteSight(plan: Plan, m: Monitor, ok: bool)
    requires !OnRoute(plan, m, ok).phase.Rejected?
    ensures EndInSight(OnRoute(plan, m, ok).phase) <==> EndInSight(m.phase)
    ensures !OnRoute(plan, m, ok).phase.Ended? && !m.phase.Ended?
  {
    hide TakenEdges, EdgesFrom, HasFailureRoute;
    match m.phase
    case At(_, _) =>
    case Finished(_) =>
    case Broken(_, _) =>
    case _ =>
  }

  lemma LeaveSight(m: Monitor)
    requires !OnLeave(m).phase.Rejected?
    ensures EndInSight(OnLeave(m).phase) <==> EndInSight(m.phase)
    ensures !OnLeave(m).phase.Ended? && !m.phase.Ended?
  {
  }

  lemma RoutingSight(plan: Plan, m: Monitor, entry: Entry)
    requires (entry.step.Route? || entry.step.Leave?) && !Observe(plan, m, entry).phase.Rejected?
    ensures EndInSight(Observe(plan, m, entry).phase) <==> EndInSight(m.phase)
    ensures !Observe(plan, m, entry).phase.Ended? && !m.phase.Ended?
  {
    hide OnEvent, OnRoute, OnLeave, EndInSight;
    if entry.step.Route? {
      RouteSight(plan, m, entry.step.ok);
    } else {
      LeaveSight(m);
    }
  }

  lemma SightUnpublished(plan: Plan, m: Monitor, entry: Entry)
    requires !entry.step.Emit? && !Observe(plan, m, entry).phase.Rejected?
    ensures EndInSight(Observe(plan, m, entry).phase) <==> EndInSight(m.phase)
    ensures Observe(plan, m, entry).phase.Ended? <==> m.phase.Ended?
  {
    hide Observe;
    if ClearsTheWay(entry.step) {
      ClearanceOnly(plan, m, entry);
    } else if entry.step.Route? || entry.step.Leave? {
      RoutingSight(plan, m, entry);
    } else if Works(entry.step) {
      WorkOnly(plan, m, entry);
    } else {
      VisitOnly(plan, m, entry);
    }
  }

  /** Neither the stretch from a success to the end nor the end itself is entered by the event. */
  predicate SightKept(a: Phase, b: Phase) {
    !a.Ended? && (b.Ended? || (EndInSight(b) <==> EndInSight(a)))
  }

  lemma SightFailure(plan: Plan, m: Monitor, e: Event)
    requires e.NodeFailed? && !OnFailed(plan, m, e).phase.Rejected?
    ensures SightKept(m.phase, OnFailed(plan, m, e).phase)
  {
    hide OnFailed;
    CancelLaws.FailureLeaves(plan, m, e);
    FailureStarts(plan, m, e);
  }

  lemma FailureStarts(plan: Plan, m: Monitor, e: Event)
    requires e.NodeFailed? && !OnFailed(plan, m, e).phase.Rejected?
    ensures m.phase.At? || m.phase.Denied? || m.phase.Window?
  {
    hide ConditionError, LastError, FailureEvent, Retry.KeepsRetrying;
  }

  lemma SightTerminal(plan: Plan, m: Monitor, e: Event, c: bool)
    requires IsTerminal(e) && !OnTerminal(plan, m, e, c).phase.Rejected?
    ensures SightKept(m.phase, OnTerminal(plan, m, e, c).phase)
  {
    hide ConditionHolds, HasFailureRoute, PastBreakpoint;
  }

  lemma SightEvent(plan: Plan, m: Monitor, e: Event, c: bool)
    requires !e.NodeFinished? && !OnEvent(plan, m, e, c).phase.Rejected?
    ensures SightKept(m.phase, OnEvent(plan, m, e, c).phase)
  {
    hide OnStarted, OnFinished, OnTransferred, OnFailed, OnTerminal, OnPaused;
    match e
    case NodeStarted(_, _, _, _, _, _, _) => StartShape(plan, m, e);
    case DataTransferred(_, _, _, _, _, _) => TransferShape(plan, m, e);
    case RunPaused => PauseShape(plan, m);
    case NodeFailed(_, _, _, _, _) => SightFailure(plan, m, e);
    case RunCancelled(_) => SightTerminal(plan, m, e, c);
    case RunCompleted(_) => SightTerminal(plan, m, e, c);
    case RunFailed(_, _) => SightTerminal(plan, m, e, c);
    case _ =>
  }

  lemma EndStep(plan: Plan, m: Monitor, e: Event, c: bool, events: seq<Event>)
    requires EndAgrees(plan, m.phase, events) && Declared(plan, m.phase) && !OnEvent(plan, m, e, c).phase.Rejected?
    ensures EndAgrees(plan, OnEvent(plan, m, e, c).phase, events + [e])
  {
    hide OnEvent, OnFinished, EndFinished;
    EndGrows(plan.doc, events, e);
    if e.NodeFinished? {
      FinishObserved(plan, m, e, c);
      FinishShape(plan, m, e);
    } else {
      SightEvent(plan, m, e, c);
    }
  }

  lemma FinishObserved(plan: Plan, m: Monitor, e: Event, c: bool)
    requires e.NodeFinished?
    ensures OnEvent(plan, m, e, c) == OnFinished(plan, m, e)
  {
    hide OnFinished;
  }

  lemma {:induction false} EndIsOnTheRecord(plan: Plan, scope: Json.Scope, trace: seq<Entry>)
    requires Accepted(plan, scope, trace)
    ensures EndAgrees(plan, Replay(plan, scope, trace).phase, Emitted(trace))
  {
    hide Observe, OnEvent, EndAgrees, InBooks, LedgerOf;
    if trace == [] {
      NothingEnded(plan, scope);
    } else {
      AcceptedPrefix(plan, scope, trace);
      var init, last := trace[..|trace| - 1], trace[|trace| - 1];
      EndIsOnTheRecord(plan, scope, init);
      SnocEvents(trace);
      var m := Replay(plan, scope, init);
      if last.step.Emit? {
        EventObserved(plan, m, last.step.event, last.cancelled);
        DeclaredThroughout(plan, scope, init);
        EndStep(plan, m, last.step.event, last.cancelled, Emitted(init));
      } else {
        SightUnpublished(plan, m, last);
        EndUnpublished(plan, m.phase, Observe(plan, m, last).phase, Emitted(init));
      }
    }
  }

  lemma NothingEnded(plan: Plan, scope: Json.Scope)
    ensures EndAgrees(plan, Begin(plan, scope).phase, [])
  {
  }

  lemma DeclaredThroughout(plan: Plan, scope: Json.Scope, trace: seq<Entry>)
    requires Accepted(plan, scope, trace)
    ensures Declared(plan, Replay(plan, scope, trace).phase)
  {
    hide Observe, LedgerOf;
    BooksAreKept(plan, scope, trace);
  }

  lemma EndUnpublished(plan: Plan, a: Phase, b: Phase, events: seq<Event>)
    requires EndAgrees(plan, a, events) && (EndInSight(b) <==> EndInSight(a)) && (b.Ended? <==> a.Ended?)
    ensures EndAgrees(plan, b, events)
  {
  }

  /** A completed run was closing just before its end exactly when a `core.End` has finished in its stream. */
  lemma ClosingMeansEndFinished(plan: Plan, scope: Json.Scope, trace: seq<Entry>)
    requires Accepted(plan, scope, trace) && trace != []
    requires trace[|trace| - 1].step.Emit? && trace[|trace| - 1].step.event.RunCompleted?
    ensures Replay(plan, scope, trace[..|trace| - 1]).phase.Closing? <==> EndFinished(plan.doc, Emitted(trace))
  {
    hide Observe, OnEvent, EndFinished;
    AcceptedPrefix(plan, scope, trace);
    var init, last := trace[..|trace| - 1], trace[|trace| - 1];
    EndIsOnTheRecord(plan, scope, init);
    SnocEvents(trace);
    EndGrows(plan.doc, Emitted(init), last.step.event);
    EventObserved(plan, Replay(plan, scope, init), last.step.event, last.cancelled);
    CompletionPoint(plan, Replay(plan, scope, init), last.step.event, last.cancelled);
  }

  lemma CompletionPoint(plan: Plan, m: Monitor, e: Event, c: bool)
    requires e.RunCompleted? && !OnEvent(plan, m, e, c).phase.Rejected?
    ensures m.phase.Ready? || m.phase.Closing?
  {
  }

  // ------------------------------------------------------- what was visited

  /** The ids visited, in order. */
  function VisitedIn(trace: seq<Entry>): seq<Id> {
    if trace == [] then []
    else
      var last := trace[|trace| - 1].step;
      VisitedIn(trace[..|trace| - 1]) + (if last.Visit? then [last.id] else [])
  }

  /** The last visited node of a trace. */
  function LastVisit(trace: seq<Entry>): Id {
    var visits := VisitedIn(trace);
    if visits == [] then "" else visits[|visits| - 1]
  }

  /** The events published since the last visit. */
  function SinceVisit(trace: seq<Entry>): seq<Event> {
    if trace == [] then []
    else
      match trace[|trace| - 1].step
      case Visit(_) => []
      case Emit(e) => SinceVisit(trace[..|trace| - 1]) + [e]
      case _ => SinceVisit(trace[..|trace| - 1])
  }

  lemma ActivationKeepsVisits(plan: Plan, m: Monitor, e: Event, c: bool)
    requires e.EdgeActivated? && !OnEvent(plan, m, e, c).phase.Rejected?
    ensures OnEvent(plan, m, e, c).visited == m.visited
  {
  }

  lemma EventKeepsVisits(plan: Plan, m: Monitor, e: Event, c: bool)
    requires !OnEvent(plan, m, e, c).phase.Rejected?
    ensures OnEvent(plan, m, e, c).visited == m.visited
  {
    hide OnEvent;
    if e.EdgeActivated? {
      ActivationKeepsVisits(plan, m, e, c);
    } else {
      PublishedKeepsChains(plan, m, e, c);
    }
  }

  lemma {:induction false} VisitsAreRecorded(plan: Plan, scope: Json.Scope, trace: seq<Entry>)
    requires Accepted(plan, scope, trace)
    ensures Replay(plan, scope, trace).visited == VisitedIn(trace)
  {
    hide Observe, OnEvent;
    if trace != [] {
      AcceptedPrefix(plan, scope, trace);
      var init, last := trace[..|trace| - 1], trace[|trace| - 1];
      VisitsAreRecorded(plan, scope, init);
      var m := Replay(plan, scope, init);
      if last.step.Emit? {
        EventObserved(plan, m, last.step.event, last.cancelled);
        EventKeepsVisits(plan, m, last.step.event, last.cancelled);
      } else if last.step.Visit? {
        VisitOnly(plan, m, last);
      } else {
        SteadyStep(plan, m, last);
      }
    }
  }

  /** The visited nodes are exactly the declared nodes that the published activations lead to from the entry. */
  ghost predicate VisitsAreTheFixpoint(plan: Plan, trace: seq<Entry>) {
    forall id :: id in Ids(plan.doc.nodes) ==>
      (id in VisitedIn(trace) <==> Reaches(LogArcs(Emitted(trace)), plan.entry, id))
  }

  lemma NothingLeftBehind(plan: Plan, scope: Json.Scope, trace: seq<Entry>)
    requires Accepted(plan, scope, trace)
    requires
      var m := Replay(plan, scope, trace);
      forall n :: n in m.activated && n in Ids(plan.doc.nodes) ==> n in m.visited
    ensures VisitsAreTheFixpoint(plan, trace)
  {
    hide Observe, Reaches, LogArcs;
    VisitsAreRecorded(plan, scope, trace);
    forall id | id in Ids(plan.doc.nodes)
      ensures id in VisitedIn(trace) <==> Reaches(LogArcs(Emitted(trace)), plan.entry, id)
    {
      OnePassComputesTheFixpoint(plan, scope, trace, id);
    }
  }
}
