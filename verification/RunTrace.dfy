// The protocol of one run, as an acceptor that replays everything the engine does: the events it
// publishes, the executor calls it makes, and the cancellation polls in between. The acceptor keeps
// its own copy of what a run must remember and rejects any step the protocol does not allow.
module RunTrace {
  import opened Digraph
  import opened Workflow
  import opened Events
  import Json
  import Retry
  import RunControl

  datatype Guard = Verdict(truthy: bool) | Malformed(detail: string)

  datatype Descriptor = Descriptor(permissions: seq<string>, dangerous: bool, configSchema: Json.Value)

  datatype Output = Output(outputs: Json.Scope, variables: Json.Scope)

  datatype Attempted = Succeeded(output: Output) | Errored(error: NodeError)

  /**
   * Everything fixed for the duration of a run. Guards are pure; port order is abstract. `resolve` and
   * `redact` are the template functions of the run's context, applied to a scope.
   */
  datatype Plan = Plan(
    doc: Document,
    entry: Id,
    registry: map<string, Descriptor>,
    guard: (string, Json.Scope) -> Guard,
    firstOutput: Json.Scope -> Json.Value,
    resolve: (Json.Scope, Json.Value, Json.Value) -> Json.Value,
    redact: Json.Scope -> Json.Scope,
    startPaused: bool,
    maxNodes: nat)

  datatype Step =
    | Poll
    | Grant(seen: RunControl.Flags)
    | Visit(id: Id)
    | Skip
    | Look(paused: bool)
    | Hold
    | Readmit(seen: RunControl.Flags)
    | Allow(capability: string)
    | Deny(reason: string)
    | Sleep(ms: nat)
    | Call(attempt: nat)
    | Return(result: Attempted, scope: Json.Scope)
    | Route(ok: bool)
    | Leave
    | Emit(event: Event)

  /** How far a breakpoint has been honoured: the gate looked at, shut, reported, and opened again. */
  datatype Stopping = Unlooked | Unpaused | Shut | Reported | Passed

  /** `cancelled` is the value of the cancellation flag at the moment of the step. */
  datatype Entry = Entry(step: Step, cancelled: bool)

  datatype Phase =
    | Initial
    | Ready(pauseDue: bool)
    | At(node: Node, transfers: seq<Event>)
    | Denied(node: Node, error: NodeError)
    | Window(node: Node, attempts: nat, calling: bool, last: Option<Attempted>)
    | Finished(node: Node)
    | Broken(node: Node, error: NodeError)
    | Routing(node: Node, ok: bool, ran: bool, pending: seq<Edge>, taken: bool, cause: Option<NodeError>)
    | Doomed(code: string, message: string)
    | Closing
    | Ended
    | Rejected

  /** Permission to visit, the breakpoint, the policy's consent, and the wait completed last. */
  datatype Clearance = Clearance(granted: bool, stopping: Stopping, allowed: bool, rested: Option<nat>)

  const UNCLEAR := Clearance(false, Unlooked, false, None)

  datatype Monitor = Monitor(
    phase: Phase,
    activated: set<Id>,
    activations: seq<Arc>,
    outputs: map<Id, Json.Scope>,
    executed: nat,
    scope: Json.Scope,
    visited: seq<Id>,
    polled: bool,
    clear: Clearance)

  // ------------------------------------------------------ the run's arithmetic

  /** No condition, or one that evaluates to something other than zero and NaN. */
  predicate ConditionHolds(plan: Plan, node: Node, scope: Json.Scope) {
    node.condition.None? || plan.guard(node.condition.value, scope) == Verdict(true)
  }

  predicate EdgeTaken(plan: Plan, edge: Edge, scope: Json.Scope, ok: bool) {
    && (edge.branch == Always || edge.branch == (if ok then EdgeBranch.Success else EdgeBranch.Failure))
    && (edge.condition.None? || plan.guard(edge.condition.value, scope) == Verdict(true))
  }

  function TakenEdges(plan: Plan, edges: seq<Edge>, scope: Json.Scope, ok: bool): seq<Edge> {
    if edges == [] then []
    else (if EdgeTaken(plan, edges[0], scope, ok) then [edges[0]] else []) + TakenEdges(plan, edges[1..], scope, ok)
  }

  predicate HasFailureRoute(plan: Plan, node: Node) {
    exists e :: e in EdgesFrom(plan.doc.edges, node.id) && e.branch == EdgeBranch.Failure
  }

  /** Data edges into a node that name both of their ports. */
  function PortedEdges(edges: seq<Edge>): seq<Edge> {
    if edges == [] then []
    else (if edges[0].sourcePort.Some? && edges[0].targetPort.Some? then [edges[0]] else []) + PortedEdges(edges[1..])
  }

  function Inflow(plan: Plan, id: Id): seq<Edge> {
    PortedEdges(DataEdgesTo(plan.doc.edges, id))
  }

  /** What a finished source offers on a port; null when it has not run or has no such port. */
  function PortValue(outputs: map<Id, Json.Scope>, source: Id, port: string): Json.Value {
    if source in outputs && port in outputs[source] then outputs[source][port] else Json.Null
  }

  function Transfer(outputs: map<Id, Json.Scope>, edge: Edge): Event {
    var sp := if edge.sourcePort.Some? then edge.sourcePort.value else "";
    var tp := if edge.targetPort.Some? then edge.targetPort.value else "";
    DataTransferred(edge.id, edge.source, edge.target, sp, tp, PortValue(outputs, edge.source, sp))
  }

  /** Input ports after a list of transfers; the last write to a port wins. */
  function FoldInputs(transfers: seq<Event>): Json.Scope {
    if transfers == [] then map[]
    else
      var last := transfers[|transfers| - 1];
      var before := FoldInputs(transfers[..|transfers| - 1]);
      if last.DataTransferred? then before[last.targetPort := last.value] else before
  }

  function Captured(plan: Plan, node: Node, outputs: Json.Scope): Json.Value {
    match node.resultPort
    case Some(port) => if port in outputs then outputs[port] else Json.Null
    case None =>
      if "out" in outputs then outputs["out"]
      else if outputs != map[] then plan.firstOutput(outputs)
      else Json.Null
  }

  /** The scope after a success: published variables, then the captured result. */
  function Publish(plan: Plan, node: Node, output: Output, scope: Json.Scope): Json.Scope {
    var published := scope + output.variables;
    if node.resultVar.Some? && node.resultVar.value != "" then
      published[node.resultVar.value := Captured(plan, node, output.outputs)]
    else published
  }

  function LastError(node: Node, error: NodeError): Json.Value {
    Json.Obj(map["code" := Json.Str(error.Code()),
                 "message" := Json.Str(error.Message()),
                 "node_id" := Json.Str(node.id),
                 "retryable" := Json.Bool(error.Retryable())])
  }

  // ------------------------------------------------------------- the acceptor

  function Begin(plan: Plan, scope: Json.Scope): Monitor {
    Monitor(Initial, {plan.entry}, [], map[], 0, scope, [], false, UNCLEAR)
  }

  function Reject(m: Monitor): Monitor {
    m.(phase := Rejected)
  }

  /** A poll is a check that found the run not cancelled; between a success and its report there is none. */
  function OnPoll(m: Monitor, cancelled: bool): Monitor {
    if cancelled || m.phase.Ended? || m.phase.Rejected? || m.phase.Initial? || m.phase == Ready(true) then Reject(m)
    else if m.phase.Window? && (m.phase.calling || (m.phase.last.Some? && m.phase.last.value.Succeeded?)) then Reject(m)
    else m.(polled := true)
  }

  /** Permission counts only if the gate, as it was seen, let the engine through. */
  function OnGrant(m: Monitor, seen: RunControl.Flags): Monitor {
    if m.phase == Ready(false) && RunControl.Check(seen).0 == RunControl.Granted then m.(clear := m.clear.(granted := true))
    else Reject(m)
  }

  /** The same behind a breakpoint that has been reported. */
  function OnReadmit(m: Monitor, seen: RunControl.Flags): Monitor {
    if m.phase.At? && m.phase.transfers == [] && m.clear.stopping == Reported &&
       RunControl.Check(seen).0 == RunControl.Granted
    then m.(clear := m.clear.(stopping := Passed)) else Reject(m)
  }

  function OnVisit(plan: Plan, m: Monitor, id: Id): Monitor {
    if m.phase == Ready(false) && m.polled && m.clear.granted && id in m.activated && m.executed < plan.maxNodes &&
       Lookup(plan.doc.nodes, id).Some?
    then m.(phase := At(Lookup(plan.doc.nodes, id).value, []), visited := m.visited + [id], clear := UNCLEAR)
    else Reject(m)
  }

  /** Skipping: an enabled node whose condition evaluates to false; no edge is activated. */
  function OnSkip(plan: Plan, m: Monitor): Monitor {
    if m.phase.At? && m.phase.transfers == [] && m.phase.node.enabled && m.phase.node.condition.Some? &&
       plan.guard(m.phase.node.condition.value, m.scope) == Verdict(false)
    then m.(phase := Ready(false), polled := false) else Reject(m)
  }

  /** An enabled node whose condition holds, with nothing gathered for it yet. */
  predicate Eligible(plan: Plan, m: Monitor) {
    m.phase.At? && m.phase.transfers == [] && m.phase.node.enabled && ConditionHolds(plan, m.phase.node, m.scope)
  }

  /** Past the breakpoint, if there is one. */
  predicate PastBreakpoint(m: Monitor)
    requires m.phase.At?
  {
    m.phase.node.breakpoint ==> m.clear.stopping == Passed
  }

  /** At a breakpoint the engine looks at the gate once; a paused gate has already held it. */
  function OnLook(plan: Plan, m: Monitor, paused: bool): Monitor {
    if Eligible(plan, m) && m.phase.node.breakpoint && m.clear.stopping == Unlooked
    then m.(clear := m.clear.(stopping := if paused then Passed else Unpaused)) else Reject(m)
  }

  /** An open gate is shut. */
  function OnHold(m: Monitor): Monitor {
    if m.phase.At? && m.clear.stopping == Unpaused then m.(clear := m.clear.(stopping := Shut)) else Reject(m)
  }

  /** Policy, and an approver where it asks for one, lets a node start that is otherwise ready to. */
  function OnAllow(plan: Plan, m: Monitor, capability: string): Monitor {
    if Eligible(plan, m) && PastBreakpoint(m) && m.phase.node.nodeType in plan.registry && capability == m.phase.node.nodeType
    then m.(clear := m.clear.(allowed := true)) else Reject(m)
  }

  /** Policy, or an approver, refuses a node that was otherwise ready to start. */
  function OnDeny(plan: Plan, m: Monitor, reason: string): Monitor {
    if Eligible(plan, m) && PastBreakpoint(m) && m.phase.node.nodeType in plan.registry && !m.clear.allowed
    then m.(phase := Denied(m.phase.node, PermissionDenied(m.phase.node.nodeType, reason)))
    else Reject(m)
  }

  /** The next executor call is the first one, or follows a retryable failure within the budget. */
  predicate MayCall(w: Phase, attempt: nat)
    requires w.Window?
  {
    && !w.calling && attempt == w.attempts + 1
    && (if w.attempts == 0 then w.last.None?
        else w.last.Some? && w.last.value.Errored? && w.last.value.error != Cancelled &&
             Retry.KeepsRetrying(w.node.retry, w.attempts))
  }

  /** What must be slept before the next call: the node's delay, then the backoff of the attempts so far. */
  function DelayDue(w: Phase): nat
    requires w.Window?
  {
    if w.attempts == 0 then w.node.delayBeforeMs else Retry.RetryDelayMs(w.node, Retry.Attempt(w.attempts))
  }

  /** One complete wait, between calls or after a success. */
  function OnSleep(m: Monitor, ms: nat): Monitor {
    if ((m.phase.Window? && !m.phase.calling) || m.phase.Finished?) && m.clear.rested.None?
    then m.(clear := m.clear.(rested := Some(ms))) else Reject(m)
  }

  function OnCall(m: Monitor, attempt: nat): Monitor {
    if m.phase.Window? && m.polled && MayCall(m.phase, attempt) && m.clear.rested == Some(DelayDue(m.phase))
    then m.(phase := m.phase.(attempts := attempt, calling := true), polled := false, clear := m.clear.(rested := None))
    else Reject(m)
  }

  function OnReturn(m: Monitor, result: Attempted, scope: Json.Scope): Monitor {
    if m.phase.Window? && m.phase.calling
    then m.(phase := m.phase.(calling := false, last := Some(result)), scope := scope, clear := m.clear.(rested := None))
    else Reject(m)
  }

  /** After a node was disabled, succeeded or failed, its eligible edges are due, in document order. */
  function OnRoute(plan: Plan, m: Monitor, ok: bool): Monitor {
    match m.phase
    case At(node, transfers) =>
      if ok && !node.enabled && transfers == []
      then m.(phase := Routing(node, true, false, TakenEdges(plan, EdgesFrom(plan.doc.edges, node.id), m.scope, true),
                               false, None))
      else Reject(m)
    case Finished(node) =>
      if ok && m.polled && m.clear.rested == Some(node.delayAfterMs)
      then m.(phase := Routing(node, true, true, TakenEdges(plan, EdgesFrom(plan.doc.edges, node.id), m.scope, true),
                               false, None))
      else Reject(m)
    case Broken(node, error) =>
      if !ok && error != Cancelled && (HasFailureRoute(plan, node) || node.continueOnError)
      then m.(phase := Routing(node, false, true, TakenEdges(plan, EdgesFrom(plan.doc.edges, node.id), m.scope, false),
                               false, Some(error)))
      else Reject(m)
    case _ => Reject(m)
  }

  /** Routing is over when every due edge was activated; an unhandled failure cannot be left. */
  function OnLeave(m: Monitor): Monitor {
    if m.phase.Routing? && m.phase.pending == [] && (m.phase.ok || m.phase.taken || m.phase.node.continueOnError)
    then m.(phase := if m.phase.ok && m.phase.ran && m.phase.node.nodeType == "core.End" then Closing else Ready(false),
            polled := false)
    else Reject(m)
  }

  function OnActivated(m: Monitor, e: Event): Monitor
    requires e.EdgeActivated?
  {
    if m.phase.Routing? && m.phase.pending != [] &&
       e == EdgeActivated(m.phase.pending[0].id, m.phase.pending[0].source, m.phase.pending[0].target,
                          m.phase.pending[0].branch)
    then m.(phase := m.phase.(pending := m.phase.pending[1..], taken := true),
            activated := m.activated + {e.target},
            activations := m.activations + [(e.source, e.target)])
    else Reject(m)
  }

  function OnTransferred(plan: Plan, m: Monitor, e: Event): Monitor
    requires e.DataTransferred?
  {
    if m.phase.At? && m.clear.allowed && |m.phase.transfers| < |Inflow(plan, m.phase.node.id)| &&
       e == Transfer(m.outputs, Inflow(plan, m.phase.node.id)[|m.phase.transfers|])
    then m.(phase := m.phase.(transfers := m.phase.transfers + [e]))
    else Reject(m)
  }

  /** A node starts with all its inputs gathered and its configuration resolved in the current scope. */
  predicate MayStart(plan: Plan, m: Monitor, e: Event)
    requires e.NodeStarted? && m.phase.At?
  {
    var node := m.phase.node;
    && node.enabled && ConditionHolds(plan, node, m.scope)
    && m.clear.allowed && PastBreakpoint(m)
    && node.nodeType in plan.registry
    && |m.phase.transfers| == |Inflow(plan, node.id)|
    && e == NodeStarted(node.id, node.nodeType, node.config,
                        plan.resolve(m.scope, node.config, plan.registry[node.nodeType].configSchema),
                        FoldInputs(m.phase.transfers), plan.redact(m.scope), node.timeoutMs)
  }

  function OnStarted(plan: Plan, m: Monitor, e: Event): Monitor
    requires e.NodeStarted?
  {
    if m.phase.At? && MayStart(plan, m, e)
    then m.(phase := Window(m.phase.node, 0, false, None), polled := false, clear := m.clear.(rested := None))
    else Reject(m)
  }

  function OnFinished(plan: Plan, m: Monitor, e: Event): Monitor
    requires e.NodeFinished?
  {
    if m.phase.Window? && !m.phase.calling && m.phase.last.Some? && m.phase.last.value.Succeeded? then
      var node, output := m.phase.node, m.phase.last.value.output;
      var scope := Publish(plan, node, output, m.scope);
      if e == NodeFinished(node.id, output.outputs, plan.redact(scope))
      then m.(phase := Finished(node), outputs := m.outputs[node.id := output.outputs], executed := m.executed + 1,
              scope := scope, polled := false, clear := m.clear.(rested := None))
      else Reject(m)
    else Reject(m)
  }

  function FailureEvent(plan: Plan, node: Node, error: NodeError, scope: Json.Scope): Event {
    NodeFailed(node.id, error.Code(), error.Message(), error.Retryable(), plan.redact(scope))
  }

  function OnFailed(plan: Plan, m: Monitor, e: Event): Monitor
    requires e.NodeFailed?
  {
    match m.phase
    case At(node, transfers) =>
      var error := InvalidConfig(ConditionError(plan, node, m.scope));
      if node.enabled && transfers == [] && node.condition.Some? &&
         plan.guard(node.condition.value, m.scope).Malformed? && e == FailureEvent(plan, node, error, m.scope)
      then m.(phase := Doomed(error.Code(), error.Message())) else Reject(m)
    case Denied(node, error) =>
      if e == FailureEvent(plan, node, error, m.scope)
      then m.(phase := Doomed(error.Code(), error.Message())) else Reject(m)
    case Window(node, attempts, calling, last) =>
      if !calling && last.Some? && last.value.Errored? &&
         (last.value.error == Cancelled || !Retry.KeepsRetrying(node.retry, attempts))
      then
        var error := last.value.error;
        var scope := m.scope["last_error" := LastError(node, error)];
        if e == FailureEvent(plan, node, error, scope)
        then m.(phase := Broken(node, error), scope := scope) else Reject(m)
      else Reject(m)
    case _ => Reject(m)
  }

  function ConditionError(plan: Plan, node: Node, scope: Json.Scope): string {
    if node.condition.Some? && plan.guard(node.condition.value, scope).Malformed?
    then "invalid node condition `" + node.condition.value + "`: " + plan.guard(node.condition.value, scope).detail
    else ""
  }

  const UNSTARTABLE := {"E_VALIDATION", "E_NO_ENTRY_POINT", "E_GRAPH"}

  /** When the run may end as cancelled: the flag is up, or an executor gave up because of it. */
  predicate MayCancel(m: Monitor, cancelled: bool) {
    match m.phase
    case Ready(due) => !due && cancelled
    case At(_, transfers) => cancelled && transfers == [] && m.clear.stopping == Reported
    case Window(_, _, calling, last) => cancelled && !calling && (last.Some? ==> last.value.Errored?)
    case Finished(_) => cancelled
    case Broken(_, error) => error == Cancelled
    case _ => false
  }

  /** When the run may end as failed, and with which report. */
  predicate MayFail(plan: Plan, m: Monitor, code: string, message: string) {
    match m.phase
    case Initial => code in UNSTARTABLE
    case Ready(due) => !due && code == "E_NODE_LIMIT" && m.executed >= plan.maxNodes
    case At(node, transfers) =>
      && code == "E_UNKNOWN_NODE_TYPE" && transfers == []
      && node.enabled && ConditionHolds(plan, node, m.scope) && PastBreakpoint(m) && node.nodeType !in plan.registry
    case Broken(node, error) =>
      && error != Cancelled && !HasFailureRoute(plan, node) && !node.continueOnError
      && code == error.Code() && message == error.Message()
    case Routing(node, ok, _, pending, taken, cause) =>
      && !ok && pending == [] && !taken && !node.continueOnError
      && cause.Some? && code == cause.value.Code() && message == cause.value.Message()
    case Doomed(c, msg) => code == c && message == msg
    case _ => false
  }

  function OnTerminal(plan: Plan, m: Monitor, e: Event, cancelled: bool): Monitor
    requires IsTerminal(e)
  {
    var allowed :=
      match e
      case RunCompleted(n) => (m.phase == Ready(false) || m.phase.Closing?) && n == m.executed
      case RunCancelled(reason) =>
        MayCancel(m, cancelled) && reason == (if m.phase.Broken? then Cancelled.Message() else "run cancelled")
      case RunFailed(code, message) => MayFail(plan, m, code, message)
      case _ => false;
    if allowed then m.(phase := Ended) else Reject(m)
  }

  predicate MayChatter(m: Monitor) {
    match m.phase
    case At(_, transfers) => transfers == []
    case Window(_, _, _, _) => true
    case Finished(_) => true
    case Broken(_, _) => true
    case Routing(_, _, _, _, _, _) => true
    case _ => false
  }

  /** Pauses are reported right after the start of a run that is to start paused, and at a breakpoint. */
  function OnPaused(plan: Plan, m: Monitor): Monitor {
    match m.phase
    case Ready(true) => m.(phase := Ready(false))
    case At(node, transfers) =>
      if transfers == [] && m.clear.stopping == Shut then m.(clear := m.clear.(stopping := Reported)) else Reject(m)
    case _ => Reject(m)
  }

  function OnEvent(plan: Plan, m: Monitor, e: Event, cancelled: bool): Monitor {
    match e
    case RunStarted(id) => if m.phase.Initial? && id == plan.doc.id then m.(phase := Ready(plan.startPaused)) else Reject(m)
    case RunPaused => OnPaused(plan, m)
    case NodeStarted(_, _, _, _, _, _, _) => OnStarted(plan, m, e)
    case NodeFinished(_, _, _) => OnFinished(plan, m, e)
    case NodeFailed(_, _, _, _, _) => OnFailed(plan, m, e)
    case EdgeActivated(_, _, _, _) => OnActivated(m, e)
    case DataTransferred(_, _, _, _, _, _) => OnTransferred(plan, m, e)
    case RunCancelled(_) => OnTerminal(plan, m, e, cancelled)
    case RunCompleted(_) => OnTerminal(plan, m, e, cancelled)
    case RunFailed(_, _) => OnTerminal(plan, m, e, cancelled)
    case _ => if MayChatter(m) then m else Reject(m)
  }

  function Observe(plan: Plan, m: Monitor, entry: Entry): Monitor {
    match entry.step
    case Poll => OnPoll(m, entry.cancelled)
    case Grant(seen) => OnGrant(m, seen)
    case Visit(id) => OnVisit(plan, m, id)
    case Skip => OnSkip(plan, m)
    case Look(paused) => OnLook(plan, m, paused)
    case Hold => OnHold(m)
    case Readmit(seen) => OnReadmit(m, seen)
    case Allow(capability) => OnAllow(plan, m, capability)
    case Deny(reason) => OnDeny(plan, m, reason)
    case Sleep(ms) => OnSleep(m, ms)
    case Call(attempt) => OnCall(m, attempt)
    case Return(result, scope) => OnReturn(m, result, scope)
    case Route(ok) => OnRoute(plan, m, ok)
    case Leave => OnLeave(m)
    case Emit(event) => OnEvent(plan, m, event, entry.cancelled)
  }

  function Replay(plan: Plan, scope: Json.Scope, trace: seq<Entry>): Monitor {
    if trace == [] then Begin(plan, scope)
    else Observe(plan, Replay(plan, scope, trace[..|trace| - 1]), trace[|trace| - 1])
  }

  /** `history` lists the acceptor's states before, between and after the steps of `trace`. */
  ghost predicate Explains(plan: Plan, scope: Json.Scope, trace: seq<Entry>, history: seq<Monitor>) {
    && |history| == |trace| + 1
    && history[0] == Begin(plan, scope)
    && (forall i {:trigger trace[i]} :: 0 <= i < |trace| ==> history[i + 1] == Observe(plan, history[i], trace[i]))
  }

  lemma {:induction false} ExplainedIsReplayed(plan: Plan, scope: Json.Scope, trace: seq<Entry>, history: seq<Monitor>)
    requires Explains(plan, scope, trace, history)
    ensures history[|trace|] == Replay(plan, scope, trace)
  {
    hide Observe;
    if trace != [] {
      var last := |trace| - 1;
      assert trace[last] in trace;
      assert Explains(plan, scope, trace[..last], history[..last + 1]) by {
        forall i | 0 <= i < last
          ensures history[..last + 1][i + 1] == Observe(plan, history[..last + 1][i], trace[..last][i])
        {
          assert trace[i] == trace[..last][i];
        }
      }
      ExplainedIsReplayed(plan, scope, trace[..last], history[..last + 1]);
    }
  }

  /** The flag is never seen down after it was seen up. */
  ghost predicate StampsRise(trace: seq<Entry>) {
    forall i, j :: 0 <= i < j < |trace| && trace[i].cancelled ==> trace[j].cancelled
  }

  function Emitted(trace: seq<Entry>): seq<Event> {
    if trace == [] then []
    else
      var last := trace[|trace| - 1].step;
      Emitted(trace[..|trace| - 1]) + (if last.Emit? then [last.event] else [])
  }

  lemma EmittedSnoc(trace: seq<Entry>, entry: Entry)
    ensures Emitted(trace + [entry]) == Emitted(trace) + (if entry.step.Emit? then [entry.step.event] else [])
  {
    assert (trace + [entry])[..|trace|] == trace;
  }

  ghost predicate Accepted(plan: Plan, scope: Json.Scope, trace: seq<Entry>) {
    StampsRise(trace) && !Replay(plan, scope, trace).phase.Rejected?
  }
}
