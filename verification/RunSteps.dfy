// One lemma per step the engine takes: when the acceptor agrees, and what it then remembers.
module RunSteps {
  import opened Digraph
  import opened Workflow
  import opened Events
  import opened RunTrace
  import Json
  import Retry
  import RunControl

  lemma EventObserved(plan: Plan, m: Monitor, e: Event, c: bool)
    ensures Observe(plan, m, Entry(Emit(e), c)) == OnEvent(plan, m, e, c)
  {
    hide OnEvent;
  }

  lemma Chatters(plan: Plan, m: Monitor, e: Event, c: bool)
    requires MayChatter(m) && IsChatter(e)
    ensures OnEvent(plan, m, e, c) == m
  {
  }

  lemma Polls(plan: Plan, m: Monitor)
    requires !OnPoll(m, false).phase.Rejected?
    ensures Observe(plan, m, Entry(Poll, false)) == m.(polled := true)
  {
  }

  lemma Begins(plan: Plan, m: Monitor, c: bool)
    requires m.phase.Initial?
    ensures OnEvent(plan, m, RunStarted(plan.doc.id), c) == m.(phase := Ready(plan.startPaused))
  {
  }

  lemma Visits(plan: Plan, m: Monitor, id: Id, c: bool)
    requires m.phase == Ready(false) && m.polled && m.clear.granted && id in m.activated && m.executed < plan.maxNodes
    requires Lookup(plan.doc.nodes, id).Some?
    ensures Observe(plan, m, Entry(Visit(id), c)) == Visited(m, Lookup(plan.doc.nodes, id).value, id)
  {
  }

  /** A visit starts with nothing gathered, nothing looked at and nothing allowed. */
  function Visited(m: Monitor, node: Node, id: Id): Monitor {
    m.(phase := At(node, []), visited := m.visited + [id], clear := UNCLEAR)
  }

  /** Where the engine may ask for permission: between nodes, and behind a reported breakpoint. */
  predicate AtTheGate(m: Monitor) {
    m.phase == Ready(false) || (m.phase.At? && m.phase.transfers == [] && m.clear.stopping == Reported)
  }

  function Permitted(m: Monitor): Monitor {
    if m.phase.Ready? then m.(clear := m.clear.(granted := true)) else m.(clear := m.clear.(stopping := Passed))
  }

  /** What being let through is called, here or there. */
  function LetThrough(m: Monitor, seen: RunControl.Flags): Step {
    if m.phase.Ready? then Grant(seen) else Readmit(seen)
  }

  lemma Grants(plan: Plan, m: Monitor, seen: RunControl.Flags, c: bool)
    requires AtTheGate(m) && RunControl.Check(seen).0 == RunControl.Granted
    ensures Observe(plan, m, Entry(LetThrough(m, seen), c)) == Permitted(m)
  {
  }

  lemma Looks(plan: Plan, m: Monitor, paused: bool, c: bool)
    requires Eligible(plan, m) && m.phase.node.breakpoint && m.clear.stopping == Unlooked
    ensures Observe(plan, m, Entry(Look(paused), c)) == m.(clear := m.clear.(stopping := if paused then Passed else Unpaused))
  {
    hide ConditionHolds;
  }

  lemma Holds(plan: Plan, m: Monitor, c: bool)
    requires m.phase.At? && m.clear.stopping == Unpaused
    ensures Observe(plan, m, Entry(Hold, c)) == m.(clear := m.clear.(stopping := Shut))
  {
  }

  lemma Allows(plan: Plan, m: Monitor, capability: string, c: bool)
    requires Eligible(plan, m) && PastBreakpoint(m)
    requires m.phase.node.nodeType in plan.registry && capability == m.phase.node.nodeType
    ensures Observe(plan, m, Entry(Allow(capability), c)) == m.(clear := m.clear.(allowed := true))
  {
    hide ConditionHolds;
  }

  predicate MaySleep(m: Monitor) {
    ((m.phase.Window? && !m.phase.calling) || m.phase.Finished?) && m.clear.rested.None?
  }

  lemma Sleeps(plan: Plan, m: Monitor, ms: nat, c: bool)
    requires MaySleep(m)
    ensures Observe(plan, m, Entry(Sleep(ms), c)) == m.(clear := m.clear.(rested := Some(ms)))
  {
  }

  lemma Skips(plan: Plan, m: Monitor, node: Node, c: bool)
    requires m.phase == At(node, []) && node.enabled && node.condition.Some?
    requires plan.guard(node.condition.value, m.scope) == Verdict(false)
    ensures Observe(plan, m, Entry(Skip, c)) == m.(phase := Ready(false), polled := false)
  {
  }

  lemma Calls(plan: Plan, m: Monitor, attempt: nat, c: bool)
    requires m.phase.Window? && m.polled && MayCall(m.phase, attempt) && m.clear.rested == Some(DelayDue(m.phase))
    ensures Observe(plan, m, Entry(Call(attempt), c)) ==
      m.(phase := Window(m.phase.node, attempt, true, m.phase.last), polled := false, clear := m.clear.(rested := None))
  {
  }

  lemma Returns(plan: Plan, m: Monitor, result: Attempted, scope: Json.Scope, c: bool)
    requires m.phase.Window? && m.phase.calling
    ensures Observe(plan, m, Entry(Return(result, scope), c)) ==
      m.(phase := Window(m.phase.node, m.phase.attempts, false, Some(result)), scope := scope, clear := m.clear.(rested := None))
  {
  }

  function Due(plan: Plan, m: Monitor, node: Node, ok: bool): seq<Edge> {
    TakenEdges(plan, EdgesFrom(plan.doc.edges, node.id), m.scope, ok)
  }

  lemma RoutesDisabled(plan: Plan, m: Monitor, node: Node, c: bool)
    requires m.phase == At(node, []) && !node.enabled
    ensures Observe(plan, m, Entry(Route(true), c)) ==
      m.(phase := Routing(node, true, false, Due(plan, m, node, true), false, None))
  {
  }

  lemma RoutesSuccess(plan: Plan, m: Monitor, node: Node, c: bool)
    requires m.phase == Finished(node) && m.polled && m.clear.rested == Some(node.delayAfterMs)
    ensures Observe(plan, m, Entry(Route(true), c)) ==
      m.(phase := Routing(node, true, true, Due(plan, m, node, true), false, None))
  {
  }

  lemma RoutesFailure(plan: Plan, m: Monitor, node: Node, error: NodeError, c: bool)
    requires m.phase == Broken(node, error) && error != Cancelled
    requires HasFailureRoute(plan, node) || node.continueOnError
    ensures Observe(plan, m, Entry(Route(false), c)) ==
      m.(phase := Routing(node, false, true, Due(plan, m, node, false), false, Some(error)))
  {
  }

  function AfterRouting(r: Phase): Phase
    requires r.Routing?
  {
    if r.ok && r.ran && r.node.nodeType == "core.End" then Closing else Ready(false)
  }

  lemma Leaves(plan: Plan, m: Monitor, c: bool)
    requires m.phase.Routing? && m.phase.pending == []
    requires m.phase.ok || m.phase.taken || m.phase.node.continueOnError
    ensures Observe(plan, m, Entry(Leave, c)) == m.(phase := AfterRouting(m.phase), polled := false)
  {
  }

  function Activated(m: Monitor, edge: Edge): Monitor
    requires m.phase.Routing? && m.phase.pending != []
  {
    m.(phase := m.phase.(pending := m.phase.pending[1..], taken := true),
       activated := m.activated + {edge.target},
       activations := m.activations + [(edge.source, edge.target)])
  }

  function ActivationOf(edge: Edge): Event {
    EdgeActivated(edge.id, edge.source, edge.target, edge.branch)
  }

  lemma Activates(plan: Plan, m: Monitor, edge: Edge, c: bool)
    requires m.phase.Routing? && m.phase.pending != [] && m.phase.pending[0] == edge
    ensures OnEvent(plan, m, ActivationOf(edge), c) == Activated(m, edge)
  {
  }

  lemma Transfers(plan: Plan, m: Monitor, edge: Edge, c: bool)
    requires m.phase.At? && m.clear.allowed && |m.phase.transfers| < |Inflow(plan, m.phase.node.id)|
    requires Inflow(plan, m.phase.node.id)[|m.phase.transfers|] == edge
    ensures OnEvent(plan, m, Transfer(m.outputs, edge), c) ==
      m.(phase := At(m.phase.node, m.phase.transfers + [Transfer(m.outputs, edge)]))
  {
  }

  /** The transfer event, and the input map it extends. */
  lemma TransferExtends(plan: Plan, m: Monitor, edge: Edge, c: bool)
    requires m.phase.At? && m.clear.allowed && |m.phase.transfers| < |Inflow(plan, m.phase.node.id)|
    requires Inflow(plan, m.phase.node.id)[|m.phase.transfers|] == edge
    ensures
      var e := Transfer(m.outputs, edge);
      && e.DataTransferred?
      && OnEvent(plan, m, e, c) == m.(phase := At(m.phase.node, m.phase.transfers + [e]))
      && FoldInputs(m.phase.transfers + [e]) == FoldInputs(m.phase.transfers)[e.targetPort := e.value]
  {
    Transfers(plan, m, edge, c);
    var e := Transfer(m.outputs, edge);
    assert (m.phase.transfers + [e])[..|m.phase.transfers|] == m.phase.transfers;
  }

  lemma Pauses(plan: Plan, m: Monitor, c: bool)
    requires m.phase == Ready(true) || (m.phase.At? && m.phase.transfers == [] && m.clear.stopping == Shut)
    ensures OnEvent(plan, m, RunPaused, c) ==
      if m.phase.Ready? then m.(phase := Ready(false)) else m.(clear := m.clear.(stopping := Reported))
  {
  }

  function StartOf(plan: Plan, scope: Json.Scope, node: Node, inputs: Json.Scope): Event
    requires node.nodeType in plan.registry
  {
    NodeStarted(node.id, node.nodeType, node.config,
                plan.resolve(scope, node.config, plan.registry[node.nodeType].configSchema),
                inputs, plan.redact(scope), node.timeoutMs)
  }

  lemma Starts(plan: Plan, m: Monitor, node: Node, c: bool)
    requires m.phase.At? && m.phase.node == node && |m.phase.transfers| == |Inflow(plan, node.id)|
    requires node.enabled && ConditionHolds(plan, node, m.scope) && node.nodeType in plan.registry
    requires m.clear.allowed && PastBreakpoint(m)
    ensures OnEvent(plan, m, StartOf(plan, m.scope, node, FoldInputs(m.phase.transfers)), c) ==
      m.(phase := Window(node, 0, false, None), polled := false, clear := m.clear.(rested := None))
  {
  }

  function FinishOf(plan: Plan, node: Node, output: Output, scope: Json.Scope): Event {
    NodeFinished(node.id, output.outputs, plan.redact(scope))
  }

  lemma Finishes(plan: Plan, m: Monitor, node: Node, output: Output, c: bool)
    requires m.phase.Window? && m.phase.node == node && !m.phase.calling && m.phase.last == Some(Succeeded(output))
    ensures
      var scope := Publish(plan, node, output, m.scope);
      OnEvent(plan, m, FinishOf(plan, node, output, scope), c) ==
        m.(phase := Finished(node), outputs := m.outputs[node.id := output.outputs], executed := m.executed + 1,
           scope := scope, polled := false, clear := m.clear.(rested := None))
  {
  }

  lemma Fails(plan: Plan, m: Monitor, node: Node, error: NodeError, c: bool)
    requires m.phase.Window? && m.phase.node == node && !m.phase.calling && m.phase.last == Some(Errored(error))
    requires error == Cancelled || !Retry.KeepsRetrying(node.retry, m.phase.attempts)
    ensures
      var scope := m.scope["last_error" := LastError(node, error)];
      OnEvent(plan, m, FailureEvent(plan, node, error, scope), c) == m.(phase := Broken(node, error), scope := scope)
  {
  }

  lemma FailsCondition(plan: Plan, m: Monitor, node: Node, c: bool)
    requires m.phase == At(node, []) && node.enabled && node.condition.Some?
    requires plan.guard(node.condition.value, m.scope).Malformed?
    ensures
      var error := InvalidConfig(ConditionError(plan, node, m.scope));
      OnEvent(plan, m, FailureEvent(plan, node, error, m.scope), c) == m.(phase := Doomed(error.Code(), error.Message()))
  {
  }

  lemma Denies(plan: Plan, m: Monitor, node: Node, reason: string, c: bool)
    requires m.phase == At(node, []) && node.enabled && ConditionHolds(plan, node, m.scope)
    requires node.nodeType in plan.registry && PastBreakpoint(m) && !m.clear.allowed
    ensures Observe(plan, m, Entry(Deny(reason), c)) ==
      m.(phase := Denied(node, PermissionDenied(node.nodeType, reason)))
  {
  }

  lemma FailsDenied(plan: Plan, m: Monitor, node: Node, error: NodeError, c: bool)
    requires m.phase == Denied(node, error)
    ensures OnEvent(plan, m, FailureEvent(plan, node, error, m.scope), c) ==
      m.(phase := Doomed(error.Code(), error.Message()))
  {
  }

  lemma Completes(plan: Plan, m: Monitor, c: bool)
    requires m.phase == Ready(false) || m.phase.Closing?
    ensures OnEvent(plan, m, RunCompleted(m.executed), c) == m.(phase := Ended)
  {
  }

  function CancelReason(m: Monitor): string {
    if m.phase.Broken? then Cancelled.Message() else "run cancelled"
  }

  lemma Cancels(plan: Plan, m: Monitor, c: bool)
    requires MayCancel(m, c)
    ensures OnEvent(plan, m, RunCancelled(CancelReason(m)), c) == m.(phase := Ended)
  {
  }

  lemma FailsRun(plan: Plan, m: Monitor, code: string, message: string, c: bool)
    requires MayFail(plan, m, code, message)
    ensures OnEvent(plan, m, RunFailed(code, message), c) == m.(phase := Ended)
  {
  }

  /** A first executor call, and another one after a failure the budget still covers. */
  lemma MayCallFirst(node: Node)
    ensures MayCall(Window(node, 0, false, None), 1)
  {
  }

  lemma MayCallAgain(w: Phase)
    requires w.Window? && !w.calling && w.attempts > 0 && w.last.Some? && w.last.value.Errored?
    requires w.last.value.error != Cancelled && Retry.KeepsRetrying(w.node.retry, w.attempts)
    ensures MayCall(w, w.attempts + 1)
  {
  }

  /** Steps that only clear the way: polls, permission, breakpoints, consent and waits. */
  predicate ClearsTheWay(step: Step) {
    step.Poll? || step.Grant? || step.Look? || step.Hold? || step.Readmit? || step.Allow? || step.Sleep?
  }

  lemma ClearanceOnly(plan: Plan, m: Monitor, entry: Entry)
    requires ClearsTheWay(entry.step) && !Observe(plan, m, entry).phase.Rejected?
    ensures
      var n := Observe(plan, m, entry);
      n == m.(polled := n.polled, clear := n.clear) && (n.polled ==> m.polled || entry.step.Poll?)
  {
    hide OnEvent, OnVisit, OnRoute, OnCall, OnReturn, OnLeave, OnSkip, OnDeny, Eligible, PastBreakpoint;
  }

  /** Steps of a node's own course, other than its visit. */
  predicate Works(step: Step) {
    step.Skip? || step.Deny? || step.Call? || step.Return? || step.Route? || step.Leave?
  }

  /** How such a step moves the phase. */
  predicate Moves(step: Step, a: Phase, b: Phase) {
    match step
    case Skip => a.At? && a.transfers == [] && b == Ready(false)
    case Deny(_) => a.At? && a.transfers == [] && b.Denied? && b.node == a.node
    case Call(attempt) => a.Window? && MayCall(a, attempt) && b == a.(attempts := attempt, calling := true)
    case Return(result, _) => a.Window? && a.calling && b == a.(calling := false, last := Some(result))
    case Route(_) => ((a.At? && a.transfers == []) || a.Finished? || a.Broken?) && b.Routing? && b.node == a.node
    case Leave => a.Routing? && (b == Ready(false) || b == Closing)
    case _ => false
  }

  /** The step changed no more than a working step may. */
  ghost predicate Worked(step: Step, m: Monitor, n: Monitor) {
    && Moves(step, m.phase, n.phase)
    && n == m.(phase := n.phase, scope := n.scope, polled := n.polled, clear := n.clear)
    && (n.polled ==> m.polled && !step.Call?) && (step.Call? ==> m.polled)
  }

  lemma SkipMoves(plan: Plan, m: Monitor)
    requires !OnSkip(plan, m).phase.Rejected?
    ensures Worked(Skip, m, OnSkip(plan, m))
  {
  }

  lemma DenyMoves(plan: Plan, m: Monitor, reason: string)
    requires !OnDeny(plan, m, reason).phase.Rejected?
    ensures Worked(Deny(reason), m, OnDeny(plan, m, reason))
  {
    hide ConditionHolds, PastBreakpoint;
  }

  lemma CallMoves(m: Monitor, attempt: nat)
    requires !OnCall(m, attempt).phase.Rejected?
    ensures Worked(Call(attempt), m, OnCall(m, attempt))
  {
    hide MayCall, DelayDue;
  }

  lemma ReturnMoves(m: Monitor, result: Attempted, scope: Json.Scope)
    requires !OnReturn(m, result, scope).phase.Rejected?
    ensures Worked(Return(result, scope), m, OnReturn(m, result, scope))
  {
  }

  lemma RouteMoves(plan: Plan, m: Monitor, ok: bool)
    requires !OnRoute(plan, m, ok).phase.Rejected?
    ensures Worked(Route(ok), m, OnRoute(plan, m, ok))
  {
    hide TakenEdges, EdgesFrom, HasFailureRoute;
  }

  lemma LeaveMoves(m: Monitor)
    requires !OnLeave(m).phase.Rejected?
    ensures Worked(Leave, m, OnLeave(m))
  {
  }

  lemma WorkOnly(plan: Plan, m: Monitor, entry: Entry)
    requires Works(entry.step) && !Observe(plan, m, entry).phase.Rejected?
    ensures Worked(entry.step, m, Observe(plan, m, entry))
  {
    hide Worked, OnSkip, OnDeny, OnCall, OnReturn, OnRoute, OnLeave, OnEvent, OnVisit, OnPoll, OnGrant, OnLook, OnHold,
         OnReadmit, OnAllow, OnSleep;
    match entry.step
    case Skip => SkipMoves(plan, m);
    case Deny(reason) => DenyMoves(plan, m, reason);
    case Call(attempt) => CallMoves(m, attempt);
    case Return(result, scope) => ReturnMoves(m, result, scope);
    case Route(ok) => RouteMoves(plan, m, ok);
    case Leave => LeaveMoves(m);
  }

  lemma VisitOnly(plan: Plan, m: Monitor, entry: Entry)
    requires entry.step.Visit? && !Observe(plan, m, entry).phase.Rejected?
    ensures
      var n := Observe(plan, m, entry);
      && m.phase.Ready? && n.phase.At? && n.phase.transfers == []
      && Lookup(plan.doc.nodes, entry.step.id) == Some(n.phase.node)
      && n == Visited(m, n.phase.node, entry.step.id)
  {
    hide OnEvent, OnRoute, OnCall, OnReturn, OnLeave, OnSkip, OnDeny, OnPoll, OnGrant, OnLook, OnHold, OnReadmit, OnAllow, OnSleep;
  }
}
