// What the laws say of a run of the engine: its published stream, its outcome, and the nodes it visited.
module RunTheorems {
  import opened CancelLaws
  import opened DataLaws
  import opened Digraph
  import opened EndLaws
  import opened Engine
  import opened Events
  import opened GateLaws
  import opened NodeLaws
  import opened OrderedSets
  import opened RoutingLaws
  import opened RunLaws
  import opened RunTrace
  import opened SecretLaws
  import opened Words
  import opened Workflow

  /**
   * The grammar of every run: one terminal event, at the end, matching the outcome; every window closed
   * by its own node unless the run was cancelled; the count of executed nodes is that of the finish events.
   */
  lemma EveryRunFollowsTheGrammar(run: WorkflowRun, outcome: RunOutcome)
    requires WellRun(run, outcome)
    ensures
      var events := Published(run);
      && events != [] && events[|events| - 1] == ClosingEvent(outcome)
      && (forall i :: 0 <= i < |events| - 1 ==> !IsTerminal(events[i]))
      && (forall i :: 0 <= i < |events| ==> run.bus.sink[i].number == i % U64)
      && outcome.nodesExecuted == FinishedIn(events) <= run.plan.maxNodes
      && (NoDuplicates(VisitedIn(run.trace)) ==> NoDuplicates(StartedIn(events)))
  {
    hide Observe, Accepted, Replay, ScanAll, ScanStep;
    var trace := run.trace;
    StreamIsWellFormed(run.plan, run.seeded, trace);
    OneTerminalEventAtTheEnd(Emitted(trace));
    CountsMatchTheLog(run.plan, run.seeded, trace);
    VisitsAreRecorded(run.plan, run.seeded, trace);
    SnocEvents(trace);
  }

  /** Every node that starts ends, or is the one a cancellation interrupts. */
  lemma EveryStartIsClosed(run: WorkflowRun, outcome: RunOutcome, i: nat) returns (j: nat)
    requires WellRun(run, outcome) && i < |Published(run)| && Published(run)[i].NodeStarted?
    ensures Closes(Published(run), i, j)
    ensures outcome.status != RunStatus.Cancelled ==> !Published(run)[j].RunCancelled?
  {
    hide Observe, Accepted, Replay, ScanAll, ScanStep;
    StreamIsWellFormed(run.plan, run.seeded, run.trace);
    j := EveryWindowCloses(Published(run), i, i + 1);
    EveryRunFollowsTheGrammar(run, outcome);
  }

  /** However a cancellation falls, at most one more executor call starts and at most one more node finishes. */
  lemma EveryRunReactsToCancel(run: WorkflowRun, outcome: RunOutcome)
    requires WellRun(run, outcome)
    ensures LateCalls(run.trace) <= 1 && LateFinishes(run.trace) <= 1
  {
    CancelTakesHoldQuickly(run.plan, run.seeded, run.trace);
  }

  /**
   * Whenever a run leaves a node behind, or fails over it, the activations it has published since are
   * exactly the node's edges that its branch and guards take in the scope of that moment.
   */
  lemma EveryRunShowsTheDueEdges(run: WorkflowRun, outcome: RunOutcome, j: nat)
    requires WellRun(run, outcome) && j < |run.trace|
    requires run.trace[j].step.Leave? || (j == |run.trace| - 1 && CourseOf(run.trace[..j]).Following?)
    ensures
      var course := CourseOf(run.trace[..j]);
      && course.Following?
      && course.shown == DueAfter(run.plan, LastVisit(run.trace[..j]), Replay(run.plan, run.seeded, run.trace[..j]).scope,
                                  course.ok)
  {
    hide Observe, Replay, CourseOf, DueAfter, LastVisit;
    assert run.trace[|run.trace| - 1].step == Step.Emit(ClosingEvent(outcome));
    DueEdgesArePublished(run.plan, run.seeded, run.trace, j);
  }

  /**
   * Whenever a run leaves a node behind, the edges it has published as activated since the node's visit are
   * exactly the control edges out of it, in document order, with an absent or truthy guard and not of the
   * other outcome's branch.
   */
  lemma EveryRunFollowsTheOutcome(run: WorkflowRun, outcome: RunOutcome, i: nat)
    requires WellRun(run, outcome) && i < |run.trace| && run.trace[i].step.Leave?
    ensures
      var plan, before := run.plan, run.trace[..i];
      var id, s, since := LastVisit(before), Replay(plan, run.seeded, before).scope, SinceVisit(before);
      ActivationsIn(since) == Activations(Kept(plan.doc.edges, (e: Edge) =>
        && e.kind == Control && e.source == id
        && e.branch != (if HasFailed(since) then EdgeBranch.Success else EdgeBranch.Failure)
        && (e.condition.None? || plan.guard(e.condition.value, s) == Verdict(true))))
  {
    hide Observe, Replay, SinceVisit, ActivationsIn, Activations, HasFailed, LastVisit;
    EdgesFollowTheOutcome(run.plan, run.seeded, run.trace, i);
  }

  /**
   * Every node that starts has been fed along exactly the data edges of the document that lead into it and
   * name both ports, in document order, each with what the stream last reported of its source; its inputs
   * are the values written last.
   */
  lemma EveryStartIsFed(run: WorkflowRun, outcome: RunOutcome, i: nat)
    requires WellRun(run, outcome) && i < |run.trace|
    requires run.trace[i].step.Emit? && run.trace[i].step.event.NodeStarted?
    ensures
      var e, before := run.trace[i].step.event, run.trace[..i];
      var shown, fed := TransfersIn(SinceVisit(before)), Feeding(run.plan.doc, e.nodeId);
      && |shown| == |fed| && Collects(e.inputs, shown)
      && (forall k :: 0 <= k < |fed| ==>
            Along(shown[k], fed[k]) && Offers(Emitted(before), fed[k].source, fed[k].sourcePort.value, shown[k].value))
  {
    hide Observe, Replay, SinceVisit, TransfersIn, Collects, Offers, LastVisit;
    StartsAreFed(run.plan, run.seeded, run.trace, i);
  }

  // ------------------------------------------------------ what a node must get past

  /** Every visit is permitted by the gate. */
  lemma EveryVisitIsPermitted(run: WorkflowRun, outcome: RunOutcome, i: nat)
    requires WellRun(run, outcome) && i < |run.trace| && run.trace[i].step.Visit?
    ensures LedgerOf(run.trace[..i]).granted
  {
    hide Observe, Replay, LedgerOf;
    VisitsArePermitted(run.plan, run.seeded, run.trace, i);
  }

  /** Every node that starts was allowed by policy and its breakpoint was honoured, both since its visit. */
  lemma EveryStartIsCleared(run: WorkflowRun, outcome: RunOutcome, i: nat)
    requires WellRun(run, outcome) && i < |run.trace|
    requires run.trace[i].step.Emit? && run.trace[i].step.event.NodeStarted?
    ensures
      var e := run.trace[i].step.event;
      ClearedToStart(run.plan, LedgerOf(run.trace[..i]), Replay(run.plan, run.seeded, run.trace[..i]).scope,
                       e.nodeId, e.nodeType)
  {
    hide Observe, Replay, LedgerOf, ClearedToStart;
    StartsAreCleared(run.plan, run.seeded, run.trace, i);
  }

  /** Every executor call comes after exactly the delay or backoff its node asks for. */
  lemma EveryCallIsSpaced(run: WorkflowRun, outcome: RunOutcome, i: nat)
    requires WellRun(run, outcome) && i < |run.trace| && run.trace[i].step.Call?
    ensures
      var id := TallyOf(run.trace[..i]).node;
      && id.Some? && Lookup(run.plan.doc.nodes, id.value).Some?
      && LedgerOf(run.trace[..i]).rests ==
         [WaitBefore(Lookup(run.plan.doc.nodes, id.value).value, run.trace[i].step.attempt)]
  {
    hide Observe, Replay, LedgerOf, TallyOf, Lookup, WaitBefore;
    CallsAreSpaced(run.plan, run.seeded, run.trace, i);
  }

  /**
   * A run in which policy or an approver refuses a node fails with that report, and nothing is called,
   * started, routed or visited after the refusal.
   */
  lemma RefusalsFailTheRun(run: WorkflowRun, outcome: RunOutcome, i: nat)
    requires WellRun(run, outcome) && i < |run.trace| && run.trace[i].step.Deny?
    ensures outcome.status == Failed && outcome.failure.Some? && outcome.failure.value.code == DENIAL
    ensures forall j :: i < j < |run.trace| ==> WindsUp(run.trace[j].step)
  {
    hide Observe, Replay, Refused;
    RefusedSince(run.plan, run.seeded, run.trace, i, |run.trace|);
    var last := |run.trace| - 1;
    assert run.trace[last].step == Step.Emit(ClosingEvent(outcome));
    assert i < last ==> WindsUp(run.trace[last].step);
  }

  /**
   * The stream of a run shows exactly the variables its document declares secret as three stars, and what
   * it shows of the run's own scope at any step it would show whatever the values of the secrets were.
   */
  lemma EveryRunKeepsSecrets(run: WorkflowRun, outcome: RunOutcome, request: Request, i: nat)
    requires WellRun(run, outcome) && run.plan == PlanOf(request, run.plan.entry)
    requires i < |run.trace| && run.trace[i].step.Emit?
    ensures
      var s := Replay(run.plan, run.seeded, run.trace[..i + 1]).scope;
      ShowsMasked(request.doc, run.trace[i].step.event, s) && SameForAll(request, run.plan, run.trace[i].step.event, s)
  {
    hide Observe, Replay, SameForAll, ShowsMasked;
    StreamKeepsSecrets(request, run.plan.entry, run.seeded, run.trace, i);
  }

  /** A run that began hands out its last scope in the same way. */
  lemma EveryOutcomeKeepsSecrets(run: WorkflowRun, outcome: RunOutcome, request: Request)
    requires WellRun(run, outcome) && run.plan == PlanOf(request, run.plan.entry)
    requires exists e :: e in Published(run) && e.RunStarted?
    ensures ShowsScope(request.doc, outcome.variables, Replay(run.plan, run.seeded, run.trace).scope)
  {
    hide Observe, Replay, ShowsScope;
    var before := run.trace[..|run.trace| - 1];
    AcceptedPrefix(run.plan, run.seeded, run.trace);
    SnocEvents(run.trace);
    assert before != [] by {
      if before == [] {
        assert false;
      }
    }
    Begun(run.plan, run.seeded, before);
    RedactionShows(request, run.plan.entry, Replay(run.plan, run.seeded, run.trace).scope);
  }
}
