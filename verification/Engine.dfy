// The run loop of the workflow engine: one pass over a topological order with a growing set of
// activated nodes. Executors, policy decisions and other threads are scripts chosen by the caller,
// so a statement about every run is a statement about every script.
module Engine {
  import opened Digraph
  import opened Workflow
  import opened Events
  import opened RunControl
  import opened RunSteps
  import opened RunTrace
  import opened Words
  import DataLaws
  import EndLaws
  import RoutingLaws
  import RunLaws
  import Json
  import Retry
  import Template
  import WorkflowGraph

  datatype RunStatus = Completed | Failed | Cancelled

  datatype RunFailure = RunFailure(code: string, message: string)

  datatype RunOutcome = RunOutcome(
    runId: string, status: RunStatus, nodesExecuted: nat, variables: Json.Scope, failure: Option<RunFailure>)

  type Chatter = e: Event | IsChatter(e) witness Log("")

  /** One executor call: what it publishes while running, the scope it leaves, and its result. */
  datatype Answer = Answer(chatter: seq<Chatter>, scope: Json.Scope, result: Attempted)

  datatype Decision = Allow | Deny(reason: string) | RequireApproval(reason: string, approved: bool)

  function Named(d: Decision): string {
    match d
    case Allow => "allow"
    case Deny(_) => "deny"
    case RequireApproval(_, _) => "require_approval"
  }

  predicate Refuses(d: Decision) {
    d.Deny? || (d.RequireApproval? && !d.approved)
  }

  type WakingOp = op: Op | Notifies(op) witness Resume

  /** An answer after which even a node with an unbounded budget is not tried again. */
  predicate Settles(a: Answer) {
    a.result.Succeeded? || a.result.error == NodeError.Cancelled
  }

  /** Other threads, executors and policy, each as an infinite script. */
  datatype Environment = Environment(
    others: nat -> seq<Op>, wakes: nat -> WakingOp, answers: nat -> Answer, decisions: nat -> Decision)

  /** The executor script cannot keep a node with an unbounded retry budget going for ever. */
  ghost predicate RetryEnds(env: Environment, node: Node) {
    node.retry < MAX_U32 || forall i: nat :: SettlesAfter(env, i)
  }

  ghost predicate SettlesAfter(env: Environment, i: nat) {
    exists j: nat :: i <= j && Settles(env.answers(j))
  }

  datatype Flow = Onward | Stop(status: RunStatus, failure: Option<RunFailure>)

  const CANCELLED_FAILURE := RunFailure("E_CANCELLED", "run cancelled")

  class WorkflowRun {
    const plan: Plan
    const seeded: Json.Scope
    const env: Environment
    const control: Control
    const bus: EventBus
    var ticks: nat
    var calls: nat
    var asked: nat

    var variables: Json.Scope
    var activated: set<Id>
    var nodeOutputs: map<Id, Json.Scope>
    var executed: nat

    ghost var slept: nat
    ghost var trace: seq<Entry>
    ghost var history: seq<Monitor>
    ghost var m: Monitor

    /** The trace is accepted so far and is what the bus has published. */
    ghost predicate Logged()
      reads this`trace, this`history, this`m, control, bus
    {
      && bus.Valid()
      && Payloads(bus.sink) == Emitted(trace)
      && Explains(plan, seeded, trace, history) && m == history[|trace|]
      && !m.phase.Rejected?
      && StampsRise(trace)
      && (forall i :: 0 <= i < |trace| && trace[i].cancelled ==> control.cancelled)
    }

    /** The engine's own variables are what the acceptor derives from the trace. */
    ghost predicate InSync()
      reads this`m, this`variables, this`activated, this`nodeOutputs, this`executed
    {
      variables == m.scope && activated == m.activated && nodeOutputs == m.outputs && executed == m.executed
    }

    ghost predicate Valid()
      reads this`trace, this`history, this`m, this`variables, this`activated, this`nodeOutputs, this`executed, control, bus
    {
      Logged() && InSync()
    }

    constructor (plan: Plan, seeded: Json.Scope, env: Environment, runId: string)
      ensures Valid() && fresh(control) && fresh(bus)
      ensures this.plan == plan && this.seeded == seeded && this.env == env && bus.runId == runId
      ensures trace == [] && m == Begin(plan, seeded) && control.Snapshot() == FRESH
    {
      this.plan, this.seeded, this.env := plan, seeded, env;
      control := new Control();
      bus := new EventBus(runId);
      ticks, calls, asked := 0, 0, 0;
      variables, activated, nodeOutputs, executed := seeded, {plan.entry}, map[], 0;
      slept, trace, history, m := 0, [], [Begin(plan, seeded)], Begin(plan, seeded);
    }

    // ------------------------------------------------------------ recording

    ghost method Record(step: Step)
      requires Logged() && !step.Emit?
      requires !Observe(plan, m, Entry(step, control.cancelled)).phase.Rejected?
      modifies this`trace, this`history, this`m
      ensures Logged()
      ensures m == Observe(plan, old(m), Entry(step, control.cancelled))
      ensures trace == old(trace) + [Entry(step, control.cancelled)]
    {
      hide Observe;
      var entry := Entry(step, control.cancelled);
      EmittedSnoc(trace, entry);
      trace := trace + [entry];
      m := Observe(plan, m, entry);
      history := history + [m];
    }

    method Emit(event: Event)
      requires Logged()
      requires !OnEvent(plan, m, event, control.cancelled).phase.Rejected?
      modifies this`trace, this`history, this`m, bus
      ensures Logged()
      ensures m == OnEvent(plan, old(m), event, control.cancelled)
      ensures trace == old(trace) + [Entry(Step.Emit(event), control.cancelled)]
      ensures history == old(history) + [m]
    {
      hide Observe, OnEvent;
      ghost var entry := Entry(Step.Emit(event), control.cancelled);
      EventObserved(plan, m, event, control.cancelled);
      EmittedSnoc(trace, entry);
      bus.Emit(event);
      trace := trace + [entry];
      m := Observe(plan, m, entry);
      history := history + [m];
    }

    /** Publishes an event that carries no progress. */
    method Note(event: Chatter)
      requires Logged() && MayChatter(m)
      modifies this`trace, this`history, this`m, bus
      ensures Logged() && m == old(m)
    {
      hide Logged, Observe, OnEvent;
      Chatters(plan, m, event, control.cancelled);
      Emit(event);
    }

    /** Publishes what an executor has to say while it runs. */
    method Relay(chatter: seq<Chatter>)
      requires Logged() && MayChatter(m)
      modifies this`trace, this`history, this`m, bus
      ensures Logged() && m == old(m)
    {
      hide Logged, MayChatter;
      for i := 0 to |chatter|
        invariant Logged() && m == old(m)
      {
        Note(chatter[i]);
      }
    }

    /** Other threads get a turn. */
    method Interfere()
      requires Logged()
      modifies this`ticks, control
      ensures Logged() && (old(control.cancelled) ==> control.cancelled)
    {
      control.OtherThreads(env.others(ticks));
      ticks := ticks + 1;
    }

    method IsCancelled() returns (cancelled: bool)
      requires Logged() && !OnPoll(m, false).phase.Rejected?
      modifies this`ticks, this`trace, this`history, this`m, control
      ensures Logged()
      ensures cancelled ==> control.cancelled && m == old(m) && trace == old(trace)
      ensures old(control.cancelled) ==> control.cancelled
      ensures !cancelled ==> m == old(m).(polled := true)
    {
      hide Logged, Observe, OnEvent;
      Interfere();
      cancelled := control.cancelled;
      if !cancelled {
        Polls(plan, m);
        Record(Poll);
      }
    }

    /** Sleeps in slices of at most 25 ms; gives up as soon as it sees the cancellation flag. */
    method WaitInterruptible(totalMs: nat) returns (ok: bool)
      requires Valid() && !OnPoll(m, false).phase.Rejected? && MaySleep(m)
      modifies this`ticks, this`trace, this`history, this`m, this`slept, control
      ensures Valid()
      ensures ok ==> m == old(m).(polled := true, clear := old(m).clear.(rested := Some(totalMs))) && slept == old(slept) + totalMs
      ensures old(control.cancelled) ==> control.cancelled
      ensures !ok ==> control.cancelled && m == old(m) && slept <= old(slept) + totalMs
    {
      hide Logged, Observe, OnEvent;
      var remaining := totalMs;
      while remaining > 0
        invariant Valid() && m == old(m) && trace == old(trace) && (old(control.cancelled) ==> control.cancelled)
        invariant 0 <= remaining <= totalMs && slept + remaining == old(slept) + totalMs
      {
        Interfere();
        if control.cancelled {
          return false;
        }
        var slice := Retry.Min(remaining, 25);
        slept := slept + slice;
        remaining := remaining - slice;
      }
      var cancelled := IsCancelled();
      if !cancelled {
        Sleeps(plan, m, totalMs, control.cancelled);
        Record(Sleep(totalMs));
      }
      return !cancelled;
    }

    /**
     * The blocking check at a node boundary. A call that never returns adds nothing to a run, so only
     * calls that do return are followed: if the gate is shut, some waking operation comes first.
     */
    method AwaitPermission() returns (ok: bool)
      requires Valid() && AtTheGate(m)
      modifies this`ticks, this`trace, this`history, this`m, control
      ensures Valid() && (old(control.cancelled) ==> control.cancelled)
      ensures ok ==> m == Permitted(old(m))
      ensures !ok ==> control.cancelled && m == old(m)
    {
      hide Logged, Observe, OnEvent, Permitted;
      Interfere();
      var verdict := TryGate();
      if verdict == Blocked {
        Release(env.wakes(ticks));
        verdict := TryGate();
        assert verdict != Blocked;
      }
      return verdict != Refused;
    }

    /** One look at the gate under its lock; being let through is on the record, with the flags that allowed it. */
    method TryGate() returns (verdict: RunControl.Verdict)
      requires Valid() && AtTheGate(m)
      modifies this`trace, this`history, this`m, control
      ensures Valid() && (verdict, control.Snapshot()) == Check(old(control.Snapshot()))
      ensures verdict == Granted ==> m == Permitted(old(m))
      ensures verdict == Granted ==>
        trace == old(trace) + [Entry(LetThrough(old(m), old(control.Snapshot())), control.cancelled)]
      ensures verdict != Granted ==> m == old(m)
    {
      ghost var seen := control.Snapshot();
      verdict := Pass();
      hide Logged, Observe, OnEvent, Permitted;
      if verdict == Granted {
        Grants(plan, m, seen, control.cancelled);
        Record(LetThrough(m, seen));
      }
    }

    method Pass() returns (verdict: RunControl.Verdict)
      requires Logged()
      modifies control
      ensures Logged() && (verdict, control.Snapshot()) == Check(old(control.Snapshot()))
    {
      hide Observe, Explains;
      verdict := control.TryPass();
    }

    /** An operator wakes the waiter. */
    method Release(op: WakingOp)
      requires Logged()
      modifies control
      ensures Logged() && control.Snapshot() == Apply(old(control.Snapshot()), op)
    {
      hide Observe, Explains;
      match op
      case Resume => control.Resume();
      case Step => control.Step();
      case Cancel => control.Cancel();
      case Finish => control.Finish();
    }

    // ---------------------------------------------------------------- edges

    /** Evaluates one edge in the current scope; a guard that cannot be evaluated counts as false. */
    method EdgeIsTaken(edge: Edge, ok: bool) returns (taken: bool)
      requires Valid() && m.phase.Routing?
      modifies this`trace, this`history, this`m, bus
      ensures Valid() && m == old(m) && taken == EdgeTaken(plan, edge, m.scope, ok)
      ensures taken ==> edge.branch != if ok then EdgeBranch.Failure else EdgeBranch.Success
      ensures edge.condition.None? ==> (taken <==> edge.branch == Always || (edge.branch == Success <==> ok))
      ensures edge.condition.Some? && plan.guard(edge.condition.value, m.scope) != Verdict(true) ==> !taken
      ensures edge.condition.Some? && plan.guard(edge.condition.value, m.scope) == Verdict(true) ==>
        (taken <==> edge.branch == Always || (edge.branch == Success <==> ok))
    {
      hide Logged, Observe, OnEvent;
      var branchMatches :=
        match edge.branch
        case Always => true
        case Success => ok
        case Failure => !ok;
      if !branchMatches {
        return false;
      }
      if edge.condition.None? {
        return true;
      }
      match plan.guard(edge.condition.value, variables)
      case Verdict(truthy) => return truthy;
      case Malformed(detail) =>
        Note(Log("edge `" + edge.id + "` guard `" + edge.condition.value + "` could not be evaluated: " + detail +
                 "; treating as false"));
        return false;
    }

    method Activate(edge: Edge)
      requires Valid() && m.phase.Routing? && m.phase.pending != [] && m.phase.pending[0] == edge
      modifies this`trace, this`history, this`m, this`activated, bus
      ensures Valid()
      ensures m == Activated(old(m), edge)
    {
      hide Logged, Observe, OnEvent;
      activated := activated + {edge.target};
      Activates(plan, m, edge, control.cancelled);
      Emit(ActivationOf(edge));
    }

    /** Activates every eligible edge of the node, in document order. */
    method RouteEdges(node: Node, ok: bool) returns (routed: bool)
      requires Valid()
      requires m.phase.Routing? && m.phase.node == node && m.phase.ok == ok && !m.phase.taken
      requires m.phase.pending == TakenEdges(plan, EdgesFrom(plan.doc.edges, node.id), m.scope, ok)
      modifies this`trace, this`history, this`m, this`activated, this`ticks, control, bus
      ensures Valid() && (old(control.cancelled) ==> control.cancelled)
      ensures m.phase == old(m).phase.(pending := [], taken := routed)
      ensures SameButActivations(plan.doc.edges, old(m), m, node.id)
      ensures m.activations == old(m).activations + ArcsOf(RoutingLaws.Firing(plan, node.id, old(m).scope, ok))
      ensures routed <==> RoutingLaws.Firing(plan, node.id, old(m).scope, ok) != []
    {
      hide Logged, EdgeTaken, SameButActivations, ConditionHolds, RoutingLaws.Firing;
      RoutingLaws.TakenIsFiring(plan, node.id, m.scope, ok);
      var edges := EdgesFrom(plan.doc.edges, node.id);
      routed := false;
      assert edges[0..] == edges;
      RoutedStart(plan.doc.edges, m, node.id);
      for k := 0 to |edges|
        invariant Valid() && (old(control.cancelled) ==> control.cancelled)
        invariant Routed(plan.doc.edges, old(m), m, node.id, routed)
        invariant m.phase.pending == TakenEdges(plan, edges[k..], m.scope, ok)
        invariant m.activations + ArcsOf(m.phase.pending) == old(m).activations + ArcsOf(old(m).phase.pending)
      {
        assert edges[k..][0] == edges[k] && edges[k..][1..] == edges[k + 1..];
        Interfere();
        var taken := EdgeIsTaken(edges[k], ok);
        if taken {
          assert edges[k] in edges;
          RoutedStep(plan.doc.edges, old(m), m, node.id, routed, edges[k]);
          ArcsMoveOver(m.activations, m.phase.pending);
          routed := true;
          Activate(edges[k]);
        }
      }
    }

    /** All eligible edges of a node that did not fail, and the way back to the loop or to the end. */
    method RouteOut(node: Node)
      requires Valid() && m.phase.Routing? && m.phase.node == node && m.phase.ok && !m.phase.taken
      requires m.phase.pending == Due(plan, m, node, true)
      modifies this`trace, this`history, this`m, this`activated, this`ticks, control, bus
      ensures Valid() && (old(control.cancelled) ==> control.cancelled)
      ensures m.phase == AfterRouting(old(m).phase) && Progressed(plan.doc.edges, old(m), m, node.id)
    {
      hide Logged, Observe, OnEvent, SameButActivations, Progressed, TakenEdges, EdgesFrom;
      ghost var before := m;
      var routed := RouteEdges(node, true);
      Leaves(plan, m, control.cancelled);
      RoutingProgresses(plan.doc.edges, before, m, AfterRouting(m.phase), node.id);
      Record(Leave);
    }

    // ------------------------------------------------------- running a node

    /** Moves one value along a data edge. */
    method TransferAlong(edge: Edge, inputs: Json.Scope) returns (extended: Json.Scope)
      requires Valid() && m.phase.At? && m.clear.allowed && inputs == FoldInputs(m.phase.transfers)
      requires edge.sourcePort.Some? && edge.targetPort.Some?
      requires |m.phase.transfers| < |Inflow(plan, m.phase.node.id)|
      requires Inflow(plan, m.phase.node.id)[|m.phase.transfers|] == edge
      modifies this`trace, this`history, this`m, bus
      ensures Valid() && m.phase.At? && extended == FoldInputs(m.phase.transfers)
      ensures m == old(m).(phase := At(old(m).phase.node, old(m).phase.transfers + [Transfer(old(m).outputs, edge)]))
    {
      hide Logged, Observe, OnEvent, Transfer, FoldInputs, Inflow;
      var event := Transfer(nodeOutputs, edge);
      TransferExtends(plan, m, edge, control.cancelled);
      extended := inputs[event.targetPort := event.value];
      Emit(event);
    }

    /**
     * Collects the input ports: one transfer event along each data edge of the document that leads into the
     * node and names both ports, in document order, with what its source has produced.
     */
    method GatherInputs(node: Node) returns (inputs: Json.Scope)
      requires Valid() && m.phase == At(node, []) && m.clear.allowed
      modifies this`trace, this`history, this`m, bus
      ensures Valid() && m == old(m).(phase := m.phase)
      ensures m.phase.At? && m.phase.node == node && |m.phase.transfers| == |Inflow(plan, node.id)|
      ensures inputs == FoldInputs(m.phase.transfers) && RunLaws.Collects(inputs, m.phase.transfers)
      ensures DataLaws.Fed(m.phase.transfers, DataLaws.Feeding(plan.doc, node.id), nodeOutputs)
    {
      inputs := map[];
      var edges := DataEdgesTo(plan.doc.edges, node.id);
      ghost var flow := Inflow(plan, node.id);
      assert edges[0..] == edges && flow[0..] == flow && Gathering(flow, m, node, inputs);
      hide Logged, Transfer, FoldInputs, Inflow, DataEdgesTo, Gathering;
      for k := 0 to |edges|
        invariant Valid() && m == old(m).(phase := m.phase) && Gathering(flow, m, node, inputs)
        invariant m.phase.At? && |m.phase.transfers| <= |flow| && flow[|m.phase.transfers|..] == PortedEdges(edges[k..])
      {
        assert edges[k..][0] == edges[k] && edges[k..][1..] == edges[k + 1..];
        if edges[k].sourcePort.Some? && edges[k].targetPort.Some? {
          inputs := GatherAlong(node, edges[k], inputs, flow);
        }
      }
      EverythingGathered(plan, m, node, inputs);
    }

    /** The next edge of the flow. */
    method GatherAlong(node: Node, edge: Edge, inputs: Json.Scope, ghost flow: seq<Edge>) returns (extended: Json.Scope)
      requires Valid() && m.clear.allowed && flow == Inflow(plan, node.id) && Gathering(flow, m, node, inputs)
      requires edge.sourcePort.Some? && edge.targetPort.Some?
      requires |m.phase.transfers| < |flow| && flow[|m.phase.transfers|..][0] == edge
      modifies this`trace, this`history, this`m, bus
      ensures Valid() && m == old(m).(phase := m.phase) && Gathering(flow, m, node, extended)
      ensures m.phase.At? && |m.phase.transfers| == |old(m).phase.transfers| + 1
      ensures flow[|m.phase.transfers|..] == flow[|old(m).phase.transfers|..][1..]
    {
      hide Logged, Transfer, FoldInputs, Inflow;
      ghost var j := |m.phase.transfers|;
      assert flow[j..][0] == flow[j] && flow[j + 1..] == flow[j..][1..];
      extended := TransferAlong(edge, inputs);
    }

    ghost method RecordCall(attempt: nat)
      requires Logged() && m.phase.Window? && m.polled && MayCall(m.phase, attempt) && m.clear.rested == Some(DelayDue(m.phase))
      modifies this`trace, this`history, this`m
      ensures Logged()
      ensures m == old(m).(phase := Window(old(m).phase.node, attempt, true, old(m).phase.last), polled := false,
                           clear := old(m).clear.(rested := None))
    {
      hide Logged, Observe, OnEvent;
      Calls(plan, m, attempt, control.cancelled);
      Record(Call(attempt));
    }

    ghost method RecordReturn(result: Attempted, scope: Json.Scope)
      requires Logged() && m.phase.Window? && m.phase.calling
      modifies this`trace, this`history, this`m
      ensures Logged()
      ensures m == old(m).(phase := Window(old(m).phase.node, old(m).phase.attempts, false, Some(result)),
                           scope := scope, clear := old(m).clear.(rested := None))
    {
      hide Logged, Observe, OnEvent;
      Returns(plan, m, result, scope, control.cancelled);
      Record(Return(result, scope));
    }

    /** One executor call, with whatever the executor and other threads do in the meantime. */
    method Execute(ghost attempt: nat) returns (result: Attempted)
      requires Valid() && m.phase.Window? && m.polled && MayCall(m.phase, attempt) && m.clear.rested == Some(DelayDue(m.phase))
      modifies this`trace, this`history, this`m, this`ticks, this`calls, this`variables, control, bus
      ensures Valid() && (old(control.cancelled) ==> control.cancelled)
      ensures calls == old(calls) + 1 && result == env.answers(old(calls)).result
      ensures m == old(m).(phase := Window(old(m).phase.node, attempt, false, Some(result)),
                           scope := env.answers(old(calls)).scope, polled := false, clear := old(m).clear.(rested := None))
    {
      hide Logged, Observe, OnEvent;
      Interfere();
      RecordCall(attempt);
      var answer := env.answers(calls);
      calls := calls + 1;
      Relay(answer.chatter);
      Interfere();
      variables, result := answer.scope, answer.result;
      RecordReturn(answer.result, answer.scope);
    }

    /** One turn of the retry loop: a call, and after a failure the budget covers, the backoff. */
    method TryOnce(node: Node, attempt: nat, ghost k: nat) returns (turn: Turn)
      requires Valid() && m.phase.Window? && m.phase.node == node && m.phase.attempts == k && m.polled
      requires MayCall(m.phase, k + 1) && attempt == Retry.Attempt(k + 1) && m.clear.rested == Some(DelayDue(m.phase))
      modifies this`trace, this`history, this`m, this`ticks, this`calls, this`variables, this`slept, control, bus
      ensures Valid() && (old(control.cancelled) ==> control.cancelled)
      ensures calls == old(calls) + 1
      ensures m == old(m).(phase := m.phase, scope := m.scope, polled := turn.Again?, clear := m.clear)
      ensures m.phase == Window(node, k + 1, false, Some(env.answers(old(calls)).result))
      ensures turn.Again? ==> m.clear.rested == Some(DelayDue(m.phase)) && slept == old(slept) + Retry.RetryDelayMs(node, attempt)
      ensures turn.Done? ==> slept == old(slept)
      ensures turn.Again? ==> MayCall(m.phase, k + 2)
      ensures turn.Done? ==> m.phase.last == Some(turn.result) && Concludes(node, m.phase)
      ensures turn.Interrupted? ==> control.cancelled
      ensures !turn.Done? ==> RetryableAnswer(env.answers(old(calls))) && Retry.KeepsRetrying(node.retry, k + 1)
    {
      hide Logged, Observe, OnEvent, MayCall;
      var result := Execute(k + 1);
      if result.Errored? && attempt <= node.retry && result.error != NodeError.Cancelled {
        Note(Log("node `" + node.id + "` failed: " + result.error.Message() + "; retrying"));
        var waited := WaitInterruptible(Retry.RetryDelayMs(node, attempt));
        MayCallAgain(m.phase);
        return if waited then Again else Interrupted;
      }
      return Done(result);
    }

    /** Calls the executor until it succeeds, gives up, runs out of budget, or a wait is interrupted. */
    method ExecuteWithRetry(node: Node) returns (execution: Option<Attempted>)
      requires Valid() && m.phase == Window(node, 0, false, None) && m.polled && m.clear.rested == Some(node.delayBeforeMs)
      requires RetryEnds(env, node) && node.retry <= MAX_U32
      modifies this`trace, this`history, this`m, this`ticks, this`calls, this`variables, this`slept, control, bus
      ensures Valid() && (old(control.cancelled) ==> control.cancelled)
      ensures m == old(m).(phase := m.phase, scope := m.scope, polled := false, clear := m.clear)
      ensures calls > old(calls)
      ensures execution.Some? ==> slept == old(slept) + Backoffs(node, calls - old(calls) - 1)
      ensures m.phase == Window(node, calls - old(calls), false, Some(env.answers(calls - 1).result))
      ensures forall i: nat :: old(calls) <= i < calls - 1 ==> RetryableAnswer(env.answers(i))
      ensures node.retry < MAX_U32 ==> calls - old(calls) <= node.retry + 1
      ensures execution.Some? ==> m.phase.last == execution && Concludes(node, m.phase)
      ensures execution.None? ==> control.cancelled && RetryableAnswer(env.answers(calls - 1))
    {
      hide Logged, Observe, OnEvent, MayCall, Concludes, Backoffs, Retry.RetryDelayMs, DelayDue, RetryEnds;
      FirstDelay(node);
      var attempt: nat := 0;
      ghost var k: nat := 0;
      ghost var horizon := Horizon(env, node, calls);
      MayCallFirst(node);
      while true
        invariant Valid() && (old(control.cancelled) ==> control.cancelled)
        invariant m == old(m).(phase := m.phase, scope := m.scope, polled := true, clear := m.clear)
        invariant m.phase.Window? && m.phase.node == node && m.phase.attempts == k && MayCall(m.phase, k + 1)
        invariant m.clear.rested == Some(DelayDue(m.phase)) && slept == old(slept) + Backoffs(node, k)
        invariant calls == old(calls) + k && attempt == Retry.Attempt(k) && calls <= horizon
        invariant node.retry < MAX_U32 ==> horizon == old(calls) + node.retry
        invariant node.retry == MAX_U32 ==> Settles(env.answers(horizon))
        invariant forall i: nat :: old(calls) <= i < calls ==> RetryableAnswer(env.answers(i))
        decreases horizon - calls
      {
        attempt := if attempt < MAX_U32 then attempt + 1 else MAX_U32;
        BackoffGrows(node, k);
        var turn := TryOnce(node, attempt, k);
        k := k + 1;
        match turn
        case Done(result) => return Some(result);
        case Interrupted => return None;
        case Again =>
      }
    }

    // ------------------------------------------------ one activated node

    method SkipNode(node: Node)
      requires Valid() && m.phase == At(node, []) && node.enabled
      requires node.condition.Some? && plan.guard(node.condition.value, m.scope) == Verdict(false)
      modifies this`trace, this`history, this`m, bus
      ensures Valid() && m == old(m).(phase := Ready(false), polled := false)
    {
      hide Logged, Observe, OnEvent;
      Note(Log("node `" + node.id + "` skipped because condition is false"));
      Skips(plan, m, node, control.cancelled);
      Record(Skip);
    }

    /** Evaluates the node's own condition. */
    method CheckCondition(node: Node) returns (gate: Gate)
      requires Valid() && m.phase == At(node, []) && node.enabled
      modifies this`trace, this`history, this`m, bus
      ensures Valid() && !gate.Halted?
      ensures gate.Proceed? ==> m == old(m) && ConditionHolds(plan, node, m.scope)
      ensures gate.Skipped? ==> m == old(m).(phase := Ready(false), polled := false)
      ensures gate.Unfit? ==> m == old(m).(phase := Doomed(gate.failure.code, gate.failure.message))
    {
      hide Logged, Observe, OnEvent, NodeError.Code, NodeError.Message, FailureEvent;
      if node.condition.None? {
        return Proceed;
      }
      match plan.guard(node.condition.value, variables)
      case Verdict(truthy) =>
        if truthy {
          return Proceed;
        }
        SkipNode(node);
        return Skipped;
      case Malformed(detail) =>
        var error := InvalidConfig(ConditionError(plan, node, variables));
        FailsCondition(plan, m, node, control.cancelled);
        Emit(FailureEvent(plan, node, error, variables));
        return Unfit(RunFailure(error.Code(), error.Message()));
    }

    /** Shuts the gate, on the record. */
    method PauseRun()
      requires Logged() && m.phase.At? && m.clear.stopping == Unpaused
      modifies this`trace, this`history, this`m, control
      ensures Logged() && m == old(m).(clear := old(m).clear.(stopping := Shut))
      ensures control.Snapshot() == Apply(old(control.Snapshot()), Pause)
    {
      ShutTheGate();
      hide Logged, Observe, OnEvent;
      Holds(plan, m, control.cancelled);
      Record(Hold);
    }

    method ShutTheGate()
      requires Logged()
      modifies control
      ensures Logged() && control.Snapshot() == Apply(old(control.Snapshot()), Pause)
    {
      hide Observe, Explains;
      control.Pause();
    }

    /** Whether the run is paused when the engine comes to a breakpoint. */
    method IsPaused(node: Node) returns (paused: bool)
      requires Valid() && m.phase == At(node, []) && node.enabled && ConditionHolds(plan, node, m.scope)
      requires node.breakpoint && m.clear.stopping == Unlooked
      modifies this`ticks, this`trace, this`history, this`m, control
      ensures Valid() && (old(control.cancelled) ==> control.cancelled)
      ensures paused == control.paused && m == old(m).(clear := old(m).clear.(stopping := if paused then Passed else Unpaused))
    {
      hide Logged, Observe, OnEvent, ConditionHolds;
      Interfere();
      paused := control.paused;
      Looks(plan, m, paused, control.cancelled);
      Record(Look(paused));
    }

    /** Before a node with a breakpoint the gate is shut, unless it was, and somebody must open it again. */
    method StopAtBreakpoint(node: Node) returns (ok: bool)
      requires Valid() && m.phase == At(node, []) && node.enabled && ConditionHolds(plan, node, m.scope)
      requires m.clear.stopping == Unlooked
      modifies this`trace, this`history, this`m, this`ticks, control, bus
      ensures Valid() && m == old(m).(clear := old(m).clear.(stopping := m.clear.stopping))
      ensures old(control.cancelled) ==> control.cancelled
      ensures ok ==> PastBreakpoint(m)
      ensures !ok ==> control.cancelled && m.clear.stopping == Reported
    {
      hide Logged, Observe, OnEvent, ConditionHolds;
      ok := true;
      if node.breakpoint {
        var paused := IsPaused(node);
        if !paused {
          Break(node);
          ok := AwaitPermission();
        }
      }
    }

    method Break(node: Node)
      requires Valid() && m.phase == At(node, []) && m.clear.stopping == Unpaused
      modifies this`trace, this`history, this`m, control, bus
      ensures Valid() && m == old(m).(clear := old(m).clear.(stopping := Reported)) && control.paused
      ensures old(control.cancelled) ==> control.cancelled
    {
      hide Logged, Observe, OnEvent, ConditionHolds;
      Note(Log("breakpoint hit before node `" + node.id + "`"));
      PauseRun();
      Pauses(plan, m, control.cancelled);
      Emit(RunPaused);
    }

    /** Asks the policy, and an approver where the policy says so. */
    method Authorize(node: Node) returns (denied: Option<NodeError>)
      requires Valid() && m.phase == At(node, []) && node.enabled && ConditionHolds(plan, node, m.scope)
      requires PastBreakpoint(m) && node.nodeType in plan.registry
      modifies this`trace, this`history, this`m, this`asked, bus
      ensures Valid() && asked == old(asked) + 1
      ensures denied.Some? <==> Refuses(env.decisions(old(asked)))
      ensures
        var decision := env.decisions(old(asked));
        && (decision.Allow? ==> denied.None?)
        && (decision.Deny? ==> denied == Some(PermissionDenied(node.nodeType, decision.reason)))
        && (decision.RequireApproval? && decision.approved ==> denied.None?)
        && (decision.RequireApproval? && !decision.approved ==> denied == Some(PermissionDenied(node.nodeType, decision.reason)))
      ensures denied.None? ==> m == old(m).(clear := old(m).clear.(allowed := true))
      ensures denied.Some? ==>
        && m == old(m) && denied.value.PermissionDenied? && denied.value.capability == node.nodeType
        && denied.value.Code() == "E_PERMISSION_DENIED"
    {
      hide Logged, Observe, OnEvent, ConditionHolds;
      var decision := env.decisions(asked);
      asked := asked + 1;
      Note(CapabilityDecision(node.nodeType, Named(decision)));
      denied := if Refuses(decision) then Some(PermissionDenied(node.nodeType, decision.reason)) else None;
      if denied.None? {
        Allows(plan, m, node.nodeType, control.cancelled);
        Record(Step.Allow(node.nodeType));
      }
    }

    method Refuse(node: Node, error: NodeError)
      requires Valid() && m.phase == At(node, []) && node.enabled && ConditionHolds(plan, node, m.scope)
      requires node.nodeType in plan.registry && error.PermissionDenied? && error.capability == node.nodeType
      requires PastBreakpoint(m) && !m.clear.allowed
      modifies this`trace, this`history, this`m, bus
      ensures Valid() && m == old(m).(phase := Doomed(error.Code(), error.Message()))
    {
      hide Logged, Observe, OnEvent, ConditionHolds, FailureEvent, NodeError.Code, NodeError.Message;
      Denies(plan, m, node, error.reason, control.cancelled);
      Record(Step.Deny(error.reason));
      FailsDenied(plan, m, node, error, control.cancelled);
      Emit(FailureEvent(plan, node, error, variables));
    }

    /** Nothing stands in the way of a node's start any more. */
    ghost predicate ReadyToStart(m: Monitor, node: Node) {
      && m.phase == At(node, []) && node.enabled && ConditionHolds(plan, node, m.scope)
      && node.nodeType in plan.registry && m.clear.allowed && PastBreakpoint(m)
    }

    /** What the run may be told when a node does not get through. */
    ghost predicate Justified(gate: Gate)
      reads this`m, control
    {
      match gate
      case Proceed => true
      case Skipped => m.phase == Ready(false)
      case Halted => m.phase.At? && MayCancel(m, control.cancelled)
      case Unfit(failure) => MayFail(plan, m, failure.code, failure.message)
    }

    /** Policy is asked at most once; a node proceeds exactly if it was asked and did not refuse, else the run fails. */
    ghost predicate Consulted(gate: Gate, before: nat)
      reads this`asked
    {
      && before <= asked <= before + 1
      && (gate.Proceed? <==> asked == before + 1 && !Refuses(env.decisions(before)))
      && (asked == before + 1 && Refuses(env.decisions(before)) ==>
            gate.Unfit? && gate.failure.code == "E_PERMISSION_DENIED")
    }

    /** Breakpoint, registry and policy, for a node whose condition holds. */
    method ClearNode(node: Node) returns (gate: Gate)
      requires Valid() && m.phase == At(node, []) && node.enabled && ConditionHolds(plan, node, m.scope)
      requires m.clear.stopping == Unlooked && !m.clear.allowed
      modifies this`trace, this`history, this`m, this`ticks, this`asked, control, bus
      ensures Valid() && (old(control.cancelled) ==> control.cancelled)
      ensures !gate.Skipped? && Justified(gate) && !m.phase.Initial?
      ensures m == old(m).(phase := m.phase, clear := m.clear)
      ensures gate.Proceed? ==> ReadyToStart(m, node)
      ensures Consulted(gate, old(asked))
    {
      hide Logged, Observe, OnEvent, ConditionHolds, NodeError.Code, NodeError.Message;
      var ok := StopAtBreakpoint(node);
      if !ok {
        return Halted;
      }
      if node.nodeType !in plan.registry {
        return Unfit(RunFailure("E_UNKNOWN_NODE_TYPE", "unknown node type `" + node.nodeType + "`"));
      }
      var denied := Authorize(node);
      if denied.Some? {
        Refuse(node, denied.value);
        return Unfit(RunFailure(denied.value.Code(), denied.value.Message()));
      }
      return Proceed;
    }

    /** Everything between the visit and the start: condition, breakpoint, registry, policy. */
    method Admit(node: Node) returns (gate: Gate)
      requires Valid() && m.phase == At(node, []) && node.enabled && m.clear.stopping == Unlooked && !m.clear.allowed
      modifies this`trace, this`history, this`m, this`ticks, this`asked, control, bus
      ensures Valid() && (old(control.cancelled) ==> control.cancelled)
      ensures Justified(gate) && !m.phase.Initial?
      ensures m == old(m).(phase := m.phase, clear := m.clear, polled := m.polled)
      ensures gate.Proceed? ==> ReadyToStart(m, node)
      ensures Consulted(gate, old(asked))
    {
      hide Logged, Observe, OnEvent, ConditionHolds, MayCancel, PastBreakpoint;
      gate := CheckCondition(node);
      if gate.Proceed? {
        gate := ClearNode(node);
      }
    }

    /** Activates the edges of a disabled node as if it had succeeded. */
    method PassThrough(node: Node)
      requires Valid() && m.phase == At(node, []) && !node.enabled
      modifies this`trace, this`history, this`m, this`activated, this`ticks, control, bus
      ensures Valid() && (old(control.cancelled) ==> control.cancelled)
      ensures m.phase == Ready(false) && Progressed(plan.doc.edges, old(m), m, node.id)
    {
      hide Logged, Observe, OnEvent, Progressed, TakenEdges, EdgesFrom;
      Note(Log("node `" + node.id + "` is disabled and was skipped"));
      RoutesDisabled(plan, m, node, control.cancelled);
      Record(Route(true));
      ghost var routing := m;
      RouteOut(node);
      ProgressStarts(plan.doc.edges, old(m), routing, m, node.id);
    }

    /** Reports a success: scope, outputs, count, event; then the delay and the eligible edges. */
    method Report(node: Node, output: Output)
      requires Valid() && m.phase.Window? && m.phase.node == node && !m.phase.calling
      requires m.phase.last == Some(Succeeded(output))
      modifies this`trace, this`history, this`m, this`variables, this`nodeOutputs, this`executed, bus
      ensures Valid()
      ensures m == old(m).(phase := Finished(node), outputs := old(m).outputs[node.id := output.outputs],
                           executed := old(m).executed + 1, scope := Publish(plan, node, output, old(m).scope),
                           polled := false, clear := old(m).clear.(rested := None))
    {
      hide Logged, Observe, OnEvent, Publish;
      Finishes(plan, m, node, output, control.cancelled);
      executed := executed + 1;
      variables := Publish(plan, node, output, variables);
      nodeOutputs := nodeOutputs[node.id := output.outputs];
      Emit(FinishOf(plan, node, output, variables));
    }

    method FollowSuccess(node: Node) returns (flow: Flow)
      requires Valid() && m.phase == Finished(node) && m.clear.rested.None?
      modifies this`trace, this`history, this`m, this`activated, this`ticks, this`slept, control, bus
      ensures Valid() && (old(control.cancelled) ==> control.cancelled)
      ensures Progressed(plan.doc.edges, old(m), m, node.id) && Landed(flow)
      ensures flow == Onward || flow == Stop(Completed, None) ==> slept == old(slept) + node.delayAfterMs
    {
      hide Logged, Observe, OnEvent, Progressed, TakenEdges, EdgesFrom;
      var waited := WaitInterruptible(node.delayAfterMs);
      if !waited {
        NothingProgresses(plan.doc.edges, old(m), m, node.id);
        return Stop(RunStatus.Cancelled, Some(CANCELLED_FAILURE));
      }
      RoutesSuccess(plan, m, node, control.cancelled);
      Record(Route(true));
      ghost var routing := m;
      RouteOut(node);
      ProgressStarts(plan.doc.edges, old(m), routing, m, node.id);
      if node.nodeType == "core.End" {
        return Stop(Completed, None);
      }
      return Onward;
    }

    /** Where the loop stands after a node: ready for the next one, or entitled to the status it stops with. */
    ghost predicate Landed(flow: Flow)
      reads this`m, control
    {
      !m.phase.Initial? &&
      match flow
      case Onward => m.phase == Ready(false)
      case Stop(Completed, failure) => m.phase.Closing? && failure.None?
      case Stop(Cancelled, failure) =>
        MayCancel(m, control.cancelled) && failure == Some(RunFailure("E_CANCELLED", CancelReason(m)))
      case Stop(Failed, failure) => failure.Some? && MayFail(plan, m, failure.value.code, failure.value.message)
    }

    /** Records a failed node: the scope learns the error, the event is published. */
    method ReportFailure(node: Node, error: NodeError)
      requires Valid() && m.phase.Window? && m.phase.node == node && !m.phase.calling
      requires m.phase.last == Some(Errored(error)) && Concludes(node, m.phase)
      modifies this`trace, this`history, this`m, this`variables, bus
      ensures Valid()
      ensures m == old(m).(phase := Broken(node, error), scope := old(m).scope["last_error" := LastError(node, error)])
    {
      hide Logged, Observe, OnEvent, LastError, FailureEvent;
      Fails(plan, m, node, error, control.cancelled);
      variables := variables["last_error" := LastError(node, error)];
      Emit(FailureEvent(plan, node, error, variables));
    }

    /** Hands a reported failure to the failure edges, to `continue_on_error`, or to the run. */
    method FollowFailure(node: Node, error: NodeError) returns (flow: Flow)
      requires Valid() && m.phase == Broken(node, error)
      modifies this`trace, this`history, this`m, this`activated, this`ticks, control, bus
      ensures Valid() && (old(control.cancelled) ==> control.cancelled)
      ensures Progressed(plan.doc.edges, old(m), m, node.id) && Landed(flow)
    {
      hide Logged, Observe, OnEvent, Progressed, HasFailureRoute, TakenEdges, EdgesFrom;
      NothingProgresses(plan.doc.edges, m, m, node.id);
      if error != NodeError.Cancelled && (HasFailureRoute(plan, node) || node.continueOnError) {
        RoutesFailure(plan, m, node, error, control.cancelled);
        Record(Route(false));
        ghost var routing := m;
        var handled := RouteFailure(node);
        ProgressStarts(plan.doc.edges, old(m), routing, m, node.id);
        if handled {
          return Onward;
        }
      }
      return Stop(if error == NodeError.Cancelled then RunStatus.Cancelled else Failed,
                  Some(RunFailure(error.Code(), error.Message())));
    }

    /** The eligible edges of a failed node; without one the node must allow the run to continue. */
    method RouteFailure(node: Node) returns (handled: bool)
      requires Valid() && m.phase.Routing? && m.phase.node == node && !m.phase.ok && !m.phase.taken && m.phase.ran
      requires m.phase.pending == Due(plan, m, node, false)
      modifies this`trace, this`history, this`m, this`activated, this`ticks, control, bus
      ensures Valid() && (old(control.cancelled) ==> control.cancelled)
      ensures Progressed(plan.doc.edges, old(m), m, node.id)
      ensures handled ==> m.phase == Ready(false)
      ensures !handled ==> m.phase == old(m).phase.(pending := []) && !node.continueOnError
    {
      hide Logged, Observe, OnEvent, SameButActivations, Progressed, TakenEdges, EdgesFrom;
      ghost var before := m;
      var routed := RouteEdges(node, false);
      handled := routed || node.continueOnError;
      if handled {
        Note(Log("node `" + node.id + "` failed; continuing"));
        Leaves(plan, m, control.cancelled);
        RoutingProgresses(plan.doc.edges, before, m, Ready(false), node.id);
        Record(Leave);
      } else {
        StuckProgresses(plan.doc.edges, before, m, node.id);
      }
    }

    /** Starts an admitted node, executes it with its delays and retries, and follows the result. */
    method StartNode(node: Node)
      requires Valid() && ReadyToStart(m, node)
      modifies this`trace, this`history, this`m, bus
      ensures Valid() && m == old(m).(phase := Window(node, 0, false, None), polled := false, clear := old(m).clear.(rested := None))
    {
      hide Logged, Observe, OnEvent, ConditionHolds, Inflow, FoldInputs;
      var inputs := GatherInputs(node);
      Starts(plan, m, node, control.cancelled);
      Emit(StartOf(plan, variables, node, inputs));
    }

    method RunNode(node: Node) returns (flow: Flow)
      requires Valid() && ReadyToStart(m, node)
      requires RetryEnds(env, node) && node.retry <= MAX_U32
      modifies this`trace, this`history, this`m, this`ticks, this`calls, this`variables, this`nodeOutputs,
               this`executed, this`activated, this`slept, control, bus
      ensures Valid() && (old(control.cancelled) ==> control.cancelled)
      ensures Progressed(plan.doc.edges, old(m), m, node.id) && Landed(flow)
    {
      hide Logged, Observe, OnEvent, Linked, ConditionHolds, Publish, LastError, RetryEnds;
      StartNode(node);
      var ready := WaitInterruptible(node.delayBeforeMs);
      if !ready {
        return Stop(RunStatus.Cancelled, Some(CANCELLED_FAILURE));
      }
      var execution := ExecuteWithRetry(node);
      if execution.None? {
        return Stop(RunStatus.Cancelled, Some(CANCELLED_FAILURE));
      }
      Interfere();
      match execution.value
      case Succeeded(output) =>
        Report(node, output);
        flow := FollowSuccess(node);
      case Errored(error) =>
        ReportFailure(node, error);
        flow := FollowFailure(node, error);
    }

    /** One turn of the main loop for an activated node. */
    method ProcessNode(id: Id) returns (flow: Flow)
      requires Valid() && m.phase == Ready(false) && m.polled && m.clear.granted && id in m.activated && m.executed < plan.maxNodes
      requires id in Ids(plan.doc.nodes)
      requires forall n :: n in plan.doc.nodes ==> RetryEnds(env, n) && n.retry <= MAX_U32
      modifies this`trace, this`history, this`m, this`ticks, this`calls, this`asked, this`variables,
               this`nodeOutputs, this`executed, this`activated, this`slept, control, bus
      ensures Valid() && (old(control.cancelled) ==> control.cancelled)
      ensures Landed(flow)
      ensures Progressed(plan.doc.edges, old(m).(visited := old(m).visited + [id]), m, id)
    {
      hide Logged, Observe, OnEvent, Linked, ConditionHolds, RetryEnds;
      var node := Lookup(plan.doc.nodes, id).value;
      Visits(plan, m, id, control.cancelled);
      Record(Visit(id));
      if !node.enabled {
        PassThrough(node);
        return Onward;
      }
      var gate := Admit(node);
      match gate
      case Skipped => return Onward;
      case Halted => return Stop(RunStatus.Cancelled, Some(CANCELLED_FAILURE));
      case Unfit(failure) => return Stop(Failed, Some(failure));
      case Proceed => flow := RunNode(node);
    }

    // ---------------------------------------------------------- the main loop

    /** How the loop may end: as a node left it, or between nodes. */
    ghost predicate Ending(status: RunStatus, failure: Option<RunFailure>)
      reads this`m, control
    {
      if status == Completed && m.phase == Ready(false) then failure.None? else Landed(Stop(status, failure))
    }

    method Drive(order: seq<Id>) returns (status: RunStatus, failure: Option<RunFailure>)
      requires Valid() && m.phase == Ready(false) && m.visited == []
      requires forall n :: n in order ==> n in Ids(plan.doc.nodes)
      requires forall n :: n in plan.doc.nodes ==> RetryEnds(env, n) && n.retry <= MAX_U32
      modifies this`trace, this`history, this`m, this`ticks, this`calls, this`asked, this`variables,
               this`nodeOutputs, this`executed, this`activated, this`slept, control, bus
      ensures Valid() && Ending(status, failure) && !m.phase.Initial?
      ensures WorkflowGraph.ValidSchedule(plan.doc, order) ==> NoDuplicates(m.visited)
      ensures WorkflowGraph.ValidSchedule(plan.doc, order) && status == Completed && m.phase == Ready(false) ==>
        Covered(order, |order|, m)
    {
      hide Logged, Observe, OnEvent, Linked, RetryEnds, WorkflowGraph.ValidSchedule;
      for i := 0 to |order|
        invariant Valid() && m.phase == Ready(false)
        invariant forall n :: n in m.visited ==> n in order[..i]
        invariant WorkflowGraph.ValidSchedule(plan.doc, order) ==> NoDuplicates(m.visited) && Covered(order, i, m)
      {
        assert order[i] in order;
        PrefixGrows(order, i, m.visited);
        var cancelled := IsCancelled();
        if cancelled {
          return RunStatus.Cancelled, Some(CANCELLED_FAILURE);
        }
        if order[i] in activated {
          if executed >= plan.maxNodes {
            return Failed, Some(RunFailure("E_NODE_LIMIT", "execution exceeded the node limit"));
          }
          var permitted := AwaitPermission();
          if !permitted {
            return RunStatus.Cancelled, Some(CANCELLED_FAILURE);
          }
          ghost var before := m;
          var flow := ProcessNode(order[i]);
          ScheduleAdvances(plan.doc, order, i, before, m);
          if flow.Stop? {
            return flow.status, flow.failure;
          }
        }
      }
      return Completed, None;
    }

    // ------------------------------------------------------------ the ending

    /** Ends a run that could not be scheduled. */
    method Abort(code: string, message: string) returns (outcome: RunOutcome)
      requires Valid() && trace == [] && m == Begin(plan, seeded) && code in UNSTARTABLE
      modifies this`trace, this`history, this`m, control, bus
      ensures WellRun(this, outcome) && control.finished && OnePass(this, outcome)
      ensures outcome == RunOutcome(bus.runId, Failed, 0, seeded, Some(RunFailure(code, message)))
    {
      hide Observe, OnEvent, Explains, StampsRise, Emitted, Payloads, WellRun, EventBus.Valid, OnePass;
      ghost var before, past, stamp := trace, history, control.cancelled;
      HistoryFits(this);
      FailsRun(plan, m, code, message, control.cancelled);
      Emit(RunFailed(code, message));
      control.Finish();
      outcome := RunOutcome(bus.runId, Failed, 0, seeded, Some(RunFailure(code, message)));
      EndsWell(this, outcome, before, past, Entry(Step.Emit(ClosingEvent(outcome)), stamp));
      PassCompletes(this, outcome);
    }

    ghost function TerminalOf(status: RunStatus, failure: Option<RunFailure>): Event
      requires status != Completed ==> failure.Some?
      reads this`m
    {
      match status
      case Completed => RunCompleted(m.executed)
      case Cancelled => RunCancelled(failure.value.message)
      case Failed => RunFailed(failure.value.code, failure.value.message)
    }

    method EmitTerminal(status: RunStatus, failure: Option<RunFailure>)
      requires Valid() && Ending(status, failure)
      modifies this`trace, this`history, this`m, bus
      ensures Logged() && m == old(m).(phase := Ended)
      ensures failure.None? <==> status == Completed
      ensures trace == old(trace) + [Entry(Step.Emit(old(TerminalOf(status, failure))), control.cancelled)]
      ensures history == old(history) + [m]
    {
      hide Logged, Observe, OnEvent;
      match status {
        case Completed =>
          Completes(plan, m, control.cancelled);
          Emit(RunCompleted(executed));
        case Cancelled =>
          Cancels(plan, m, control.cancelled);
          Emit(RunCancelled(failure.value.message));
        case Failed =>
          FailsRun(plan, m, failure.value.code, failure.value.message, control.cancelled);
          Emit(RunFailed(failure.value.code, failure.value.message));
      }
    }

    /** Publishes the terminal event, releases every waiter and reports. */
    method Finish(status: RunStatus, failure: Option<RunFailure>) returns (outcome: RunOutcome)
      requires Valid() && Ending(status, failure) && !m.phase.Initial?
      modifies this`trace, this`history, this`m, control, bus
      ensures WellRun(this, outcome) && control.finished && m == old(m).(phase := Ended)
      ensures BeforeEnd(this) == old(m)
      ensures outcome.status == status && outcome.failure == failure
    {
      hide Observe, OnEvent, Ending;
      ghost var before, past, stamp := trace, history, control.cancelled;
      EmitTerminal(status, failure);
      control.Finish();
      outcome := RunOutcome(bus.runId, status, executed, plan.redact(variables), failure);
      EndsWell(this, outcome, before, past, Entry(Step.Emit(ClosingEvent(outcome)), stamp));
    }

    /** The run proper: start events, the loop, the end. */
    method Conduct(order: seq<Id>) returns (outcome: RunOutcome)
      requires Valid() && m == Begin(plan, seeded)
      requires forall n :: n in order ==> n in Ids(plan.doc.nodes)
      requires forall n :: n in plan.doc.nodes ==> RetryEnds(env, n) && n.retry <= MAX_U32
      modifies this`trace, this`history, this`m, this`ticks, this`calls, this`asked, this`variables,
               this`nodeOutputs, this`executed, this`activated, this`slept, control, bus
      ensures WellRun(this, outcome) && control.finished
      ensures WorkflowGraph.ValidSchedule(plan.doc, order) ==> OnePass(this, outcome)
      ensures outcome.status == RunStatus.Cancelled ==> outcome.failure.Some? && outcome.failure.value.code == "E_CANCELLED"
    {
      hide Logged, Observe, OnEvent, RetryEnds, WorkflowGraph.ValidSchedule, WellRun, OnePass;
      Begins(plan, m, control.cancelled);
      Emit(RunStarted(plan.doc.id));
      if plan.startPaused {
        Pauses(plan, m, control.cancelled);
        Emit(RunPaused);
      }
      var status, failure := Drive(order);
      ghost var last := m;
      if WorkflowGraph.ValidSchedule(plan.doc, order) && status == Completed && m.phase == Ready(false) {
        CoversAll(plan.doc, order, m);
      }
      outcome := Finish(status, failure);
      if WorkflowGraph.ValidSchedule(plan.doc, order) {
        PassCompletes(this, outcome);
      }
    }
  }

  /** What has been gathered for a node so far, and from which of its edges. */
  ghost predicate Gathering(flow: seq<Edge>, m: Monitor, node: Node, inputs: Json.Scope) {
    && m.phase.At? && m.phase.node == node && |m.phase.transfers| <= |flow|
    && (forall k :: 0 <= k < |m.phase.transfers| ==> m.phase.transfers[k] == Transfer(m.outputs, flow[k]))
    && inputs == FoldInputs(m.phase.transfers)
  }

  lemma EverythingGathered(plan: Plan, m: Monitor, node: Node, inputs: Json.Scope)
    requires Gathering(Inflow(plan, node.id), m, node, inputs)
    ensures m.phase.At? && m.phase.node == node && inputs == FoldInputs(m.phase.transfers)
    ensures |m.phase.transfers| == |Inflow(plan, node.id)| ==>
      && RunLaws.Collects(inputs, m.phase.transfers)
      && DataLaws.Fed(m.phase.transfers, DataLaws.Feeding(plan.doc, node.id), m.outputs)
  {
    hide RunLaws.Collects, FoldInputs, Transfer;
    RunLaws.FoldCollects(m.phase.transfers);
    DataLaws.InflowFeeds(plan, node.id, m.outputs);
  }

  lemma PrefixGrows(order: seq<Id>, i: nat, visited: seq<Id>)
    requires i < |order| && forall n :: n in visited ==> n in order[..i]
    ensures forall n :: n in visited + [order[i]] ==> n in order[..i + 1]
    ensures NoDuplicates(order) && NoDuplicates(visited) ==> NoDuplicates(visited + [order[i]])
  {
    assert order[..i + 1] == order[..i] + [order[i]];
    if NoDuplicates(order) {
      forall k | 0 <= k < i ensures order[..i][k] != order[i] {
        assert order[k] != order[i];
      }
      assert order[i] !in order[..i];
    }
  }

  /** Nodes at earlier positions of the order that are activated have been visited. */
  ghost predicate Covered(order: seq<Id>, i: nat, m: Monitor)
    requires i <= |order|
  {
    forall j :: 0 <= j < i && order[j] in m.activated ==> order[j] in m.visited
  }

  /** Whatever position `i` activates lies strictly later in a valid schedule. */
  lemma ScheduleAdvances(doc: Document, order: seq<Id>, i: nat, a: Monitor, b: Monitor)
    requires i < |order|
    requires forall n :: n in a.visited ==> n in order[..i]
    requires Progressed(doc.edges, a.(visited := a.visited + [order[i]]), b, order[i])
    ensures forall n :: n in b.visited ==> n in order[..i + 1]
    ensures WorkflowGraph.ValidSchedule(doc, order) && NoDuplicates(a.visited) ==> NoDuplicates(b.visited)
    ensures WorkflowGraph.ValidSchedule(doc, order) && Covered(order, i, a) ==> Covered(order, i + 1, b)
  {
    PrefixGrows(order, i, a.visited);
    if WorkflowGraph.ValidSchedule(doc, order) && Covered(order, i, a) {
      CoverageAdvances(doc, order, i, a, b);
    }
  }

  lemma CoverageAdvances(doc: Document, order: seq<Id>, i: nat, a: Monitor, b: Monitor)
    requires i < |order| && WorkflowGraph.ValidSchedule(doc, order) && Covered(order, i, a)
    requires Progressed(doc.edges, a.(visited := a.visited + [order[i]]), b, order[i])
    ensures Covered(order, i + 1, b)
  {
    forall j | 0 <= j < i + 1 && order[j] in b.activated ensures order[j] in b.visited {
      CoveredNext(doc, order, i, a, b, j);
    }
  }

  lemma CoveredNext(doc: Document, order: seq<Id>, i: nat, a: Monitor, b: Monitor, j: nat)
    requires j <= i < |order| && WorkflowGraph.ValidSchedule(doc, order) && Covered(order, i, a)
    requires Progressed(doc.edges, a.(visited := a.visited + [order[i]]), b, order[i])
    requires order[j] in b.activated
    ensures order[j] in b.visited
  {
    assert b.visited[|a.visited|] == order[i];
    if order[j] !in a.activated {
      ActivatedLater(doc, order, i, j);
    } else if j < i {
      assert order[j] in a.visited;
    }
  }

  lemma ActivatedLater(doc: Document, order: seq<Id>, i: nat, j: nat)
    requires WorkflowGraph.ValidSchedule(doc, order)
    requires i < |order| && j < |order| && Linked(doc.edges, order[i], order[j])
    ensures i < j
  {
    var e :| e in EdgesFrom(doc.edges, order[i]) && e.target == order[j];
    EdgesFromExact(doc.edges, order[i]);
    assert order[i] in Elements(order) && order[j] in Elements(order);
    ControlArcsExact(doc.edges, Ids(doc.nodes));
    assert (order[i], order[j]) in ControlArcs(doc.edges, Ids(doc.nodes));
    var k :| 0 <= k < j && order[..j][k] == order[i];
    assert order[k] == order[i];
  }

  /** Where the retries of a node come to an end at the latest. */
  lemma Horizon(env: Environment, node: Node, calls: nat) returns (horizon: nat)
    requires RetryEnds(env, node) && node.retry <= MAX_U32
    ensures calls <= horizon
    ensures node.retry < MAX_U32 ==> horizon == calls + node.retry
    ensures node.retry == MAX_U32 ==> Settles(env.answers(horizon))
  {
    horizon := calls + node.retry;
    if node.retry == MAX_U32 {
      assert SettlesAfter(env, calls);
      horizon :| calls <= horizon && Settles(env.answers(horizon));
    }
  }

  /** All the backoff between the first `n + 1` attempts. */
  function Backoffs(node: Node, n: nat): nat {
    if n == 0 then 0 else Backoffs(node, n - 1) + Retry.RetryDelayMs(node, Retry.Attempt(n))
  }

  lemma BackoffGrows(node: Node, k: nat)
    ensures Backoffs(node, k + 1) == Backoffs(node, k) + Retry.RetryDelayMs(node, Retry.Attempt(k + 1))
    ensures Backoffs(node, 0) == 0
  {
  }

  lemma FirstDelay(node: Node)
    ensures DelayDue(Window(node, 0, false, None)) == node.delayBeforeMs && Backoffs(node, 0) == 0
  {
  }

  datatype Gate = Proceed | Skipped | Halted | Unfit(failure: RunFailure)

  datatype Turn = Done(result: Attempted) | Interrupted | Again

  /** A failure other than a cancellation. */
  predicate RetryableAnswer(a: Answer) {
    a.result.Errored? && a.result.error != NodeError.Cancelled
  }

  /** The retry loop is over: success, or a failure that may not be tried again. */
  predicate Concludes(node: Node, w: Phase)
    requires w.Window?
  {
    w.last.Some? && (w.last.value.Succeeded? || w.last.value.error == NodeError.Cancelled ||
                     !Retry.KeepsRetrying(node.retry, w.attempts))
  }

  /** Part of the due edges has been activated, and nothing else has changed. */
  ghost predicate Routed(edges: seq<Edge>, a: Monitor, b: Monitor, source: Id, routed: bool) {
    && a.phase.Routing? && !a.phase.taken && b.phase.Routing?
    && b.phase == a.phase.(pending := b.phase.pending, taken := routed)
    && |b.phase.pending| <= |a.phase.pending|
    && (if routed then |b.phase.pending| < |a.phase.pending| else b.phase.pending == a.phase.pending)
    && SameButActivations(edges, a, b, source)
  }

  function ArcsOf(edges: seq<Edge>): seq<Arc> {
    seq(|edges|, i requires 0 <= i < |edges| => (edges[i].source, edges[i].target))
  }

  /** An activation moves the first pending edge's arc over to the activations. */
  lemma ArcsMoveOver(a: seq<Arc>, pending: seq<Edge>)
    requires pending != []
    ensures a + ArcsOf(pending) == (a + [(pending[0].source, pending[0].target)]) + ArcsOf(pending[1..])
  {
    assert ArcsOf(pending) == [(pending[0].source, pending[0].target)] + ArcsOf(pending[1..]);
  }

  lemma RoutedStart(edges: seq<Edge>, m: Monitor, source: Id)
    requires m.phase.Routing? && !m.phase.taken
    ensures Routed(edges, m, m, source, false)
  {
  }

  lemma RoutedStep(edges: seq<Edge>, a: Monitor, b: Monitor, source: Id, routed: bool, edge: Edge)
    requires Routed(edges, a, b, source, routed) && b.phase.pending != [] && edge in EdgesFrom(edges, source)
    ensures Routed(edges, a, Activated(b, edge), source, true)
  {
    assert Linked(edges, source, edge.target);
  }

  /** `b` differs from `a` in its phase and in activations that start at `source` only. */
  ghost predicate SameButActivations(edges: seq<Edge>, a: Monitor, b: Monitor, source: Id) {
    && b == a.(phase := b.phase, activated := b.activated, activations := b.activations)
    && a.activations <= b.activations
    && a.activated <= b.activated
    && (forall t :: t in b.activated && t !in a.activated ==> Linked(edges, source, t))
  }

  /** What one node may change: results of its own, and activations along its own edges. */
  ghost predicate Progressed(edges: seq<Edge>, a: Monitor, b: Monitor, source: Id) {
    && b.visited == a.visited
    && a.activations <= b.activations
    && a.activated <= b.activated
    && (forall t :: t in b.activated && t !in a.activated ==> Linked(edges, source, t))
  }

  lemma NothingProgresses(edges: seq<Edge>, a: Monitor, b: Monitor, source: Id)
    requires b.visited == a.visited && b.activations == a.activations && b.activated == a.activated
    ensures Progressed(edges, a, b, source)
  {
  }

  lemma RoutingProgresses(edges: seq<Edge>, a: Monitor, b: Monitor, left: Phase, source: Id)
    requires SameButActivations(edges, a, b, source)
    ensures Progressed(edges, a, b.(phase := left, polled := false), source)
  {
  }

  lemma StuckProgresses(edges: seq<Edge>, a: Monitor, b: Monitor, source: Id)
    requires SameButActivations(edges, a, b, source)
    ensures Progressed(edges, a, b, source)
  {
  }

  lemma ProgressStarts(edges: seq<Edge>, a: Monitor, b: Monitor, c: Monitor, source: Id)
    requires b.visited == a.visited && b.activations == a.activations && b.activated == a.activated
    requires Progressed(edges, b, c, source)
    ensures Progressed(edges, a, c, source)
  {
  }

  /** A control edge leads from one id to the other. */
  ghost predicate Linked(edges: seq<Edge>, source: Id, target: Id) {
    exists e :: e in EdgesFrom(edges, source) && e.target == target
  }

  // ------------------------------------------------------------ a whole run

  datatype Options = Options(validate: bool, maxNodes: nat)

  /** What the caller of a run supplies besides the document. */
  datatype Request = Request(
    doc: Document,
    overrides: Json.Scope,
    startPaused: bool,
    valid: bool,
    registry: map<string, Descriptor>,
    guard: (string, Json.Scope) -> Guard,
    firstOutput: Json.Scope -> Json.Value,
    codec: Template.Codec,
    options: Options,
    runId: string)

  /** Document defaults, overridden and extended by the caller. */
  function SeededVariables(doc: Document, overrides: Json.Scope): Json.Scope {
    (map n | n in doc.variables :: doc.variables[n].value) + overrides
  }

  lemma OverridesWin(doc: Document, overrides: Json.Scope)
    ensures
      var seeded := SeededVariables(doc, overrides);
      && (forall n :: n in seeded <==> n in doc.variables || n in overrides)
      && (forall n :: n in overrides ==> seeded[n] == overrides[n])
      && (forall n :: n in doc.variables && n !in overrides ==> seeded[n] == doc.variables[n].value)
  {
  }

  function Secrets(doc: Document): set<string> {
    set n | n in doc.variables && doc.variables[n].secret
  }

  function PlanOf(request: Request, entry: Id): Plan {
    var secrets, codec := Secrets(request.doc), request.codec;
    Plan(request.doc, entry, request.registry, request.guard, request.firstOutput,
         (scope, value, schema) => Template.ResolveConfig(Template.View(scope, secrets, codec), value, Some(schema)),
         scope => Template.RedactedVariables(Template.View(scope, secrets, codec)),
         request.startPaused,
         request.options.maxNodes)
  }

  /**
   * What every run leaves behind: a trace the acceptor replays to its end, published as it stands,
   * closed by the terminal event that matches the outcome.
   */
  ghost predicate WellRun(run: WorkflowRun, outcome: RunOutcome)
    reads run, run.bus
  {
    var trace := run.trace;
    var m := Replay(run.plan, run.seeded, trace);
    && run.bus.Valid() && Payloads(run.bus.sink) == Emitted(trace)
    && Accepted(run.plan, run.seeded, trace) && m.phase.Ended? && run.m == m
    && outcome.runId == run.bus.runId
    && outcome.nodesExecuted == m.executed
    && (outcome.failure.None? <==> outcome.status == Completed)
    && |trace| > 0 && trace[|trace| - 1].step == Step.Emit(ClosingEvent(outcome))
    && outcome.variables == (if BeforeEnd(run).phase.Initial? then run.seeded else run.plan.redact(m.scope))
  }

  ghost function ClosingEvent(outcome: RunOutcome): Event {
    var failure := if outcome.failure.Some? then outcome.failure.value else RunFailure("", "");
    match outcome.status
    case Completed => RunCompleted(outcome.nodesExecuted)
    case Cancelled => RunCancelled(failure.message)
    case Failed => RunFailed(failure.code, failure.message)
  }

  /** The state of the acceptor just before the terminal event. */
  ghost function BeforeEnd(run: WorkflowRun): Monitor
    requires |run.trace| > 0
    reads run
  {
    Replay(run.plan, run.seeded, run.trace[..|run.trace| - 1])
  }

  /** The events a run has published. */
  ghost function Published(run: WorkflowRun): seq<Event>
    reads run, run.bus
  {
    Payloads(run.bus.sink)
  }

  /**
   * One forward pass: no node is visited twice, and a run that completes without a `core.End` in its
   * stream has visited exactly the declared nodes that its published activations lead to.
   */
  ghost predicate OnePass(run: WorkflowRun, outcome: RunOutcome)
    reads run, run.bus
  {
    && NoDuplicates(EndLaws.VisitedIn(run.trace))
    && (outcome.status == Completed && !EndLaws.EndFinished(run.plan.doc, Published(run)) ==>
          EndLaws.VisitsAreTheFixpoint(run.plan, run.trace))
  }

  lemma PassCompletes(run: WorkflowRun, outcome: RunOutcome)
    requires WellRun(run, outcome) && NoDuplicates(run.m.visited)
    requires outcome.status == Completed && !BeforeEnd(run).phase.Closing? ==>
      forall n :: n in run.m.activated && n in Ids(run.plan.doc.nodes) ==> n in run.m.visited
    ensures OnePass(run, outcome)
  {
    hide Observe, Replay, EndLaws.EndFinished, EndLaws.VisitsAreTheFixpoint, EndLaws.VisitedIn, NoDuplicates;
    EndLaws.VisitsAreRecorded(run.plan, run.seeded, run.trace);
    if outcome.status == Completed && !EndLaws.EndFinished(run.plan.doc, Published(run)) {
      EndLaws.ClosingMeansEndFinished(run.plan, run.seeded, run.trace);
      EndLaws.NothingLeftBehind(run.plan, run.seeded, run.trace);
    }
  }

  lemma CoversAll(doc: Document, order: seq<Id>, m: Monitor)
    requires WorkflowGraph.ValidSchedule(doc, order) && Covered(order, |order|, m)
    ensures forall n :: n in m.activated && n in Ids(doc.nodes) ==> n in m.visited
  {
    forall n | n in m.activated && n in Ids(doc.nodes) ensures n in m.visited {
      assert n in Elements(order);
      var j :| 0 <= j < |order| && order[j] == n;
    }
  }

  lemma HistoryFits(run: WorkflowRun)
    requires run.Logged()
    ensures |run.history| == |run.trace| + 1 && run.history[|run.trace|] == run.m
  {
    hide Observe;
  }

  lemma EndsWell(run: WorkflowRun, outcome: RunOutcome, before: seq<Entry>, history: seq<Monitor>, last: Entry)
    requires run.Logged() && run.m.phase.Ended?
    requires run.trace == before + [last] && run.history == history + [run.m] && |history| == |before| + 1
    requires last.step == Step.Emit(ClosingEvent(outcome))
    requires outcome.runId == run.bus.runId && outcome.nodesExecuted == run.m.executed
    requires outcome.failure.None? <==> outcome.status == Completed
    requires outcome.variables ==
      (if history[|before|].phase.Initial? then run.seeded else run.plan.redact(run.m.scope))
    ensures WellRun(run, outcome)
    ensures BeforeEnd(run) == history[|before|]
  {
    hide Observe;
    ExplainedIsReplayed(run.plan, run.seeded, run.trace, run.history);
    assert run.trace[..|run.trace| - 1] == before;
    assert Explains(run.plan, run.seeded, before, history) by {
      forall i | 0 <= i < |before| ensures history[i + 1] == Observe(run.plan, history[i], before[i]) {
        assert before[i] == run.trace[i] && history[i] == run.history[i] && history[i + 1] == run.history[i + 1];
      }
    }
    ExplainedIsReplayed(run.plan, run.seeded, before, history);
  }

  /** The request is turned down before anything runs, with this code. */
  ghost predicate TurnedDown(outcome: RunOutcome, code: string) {
    outcome.status == Failed && outcome.nodesExecuted == 0 && outcome.failure.Some? && outcome.failure.value.code == code
  }

  /**
   * A run of a document, for every script of executors, policy and other threads. Whatever happens,
   * the trace is well formed. If the control edges form no cycle, or no root id is declared twice, the
   * loop is one pass, and a run that completes without a `core.End` having finished has computed the
   * activation fixpoint.
   */
  method Run(request: Request, env: Environment) returns (run: WorkflowRun, outcome: RunOutcome)
    requires forall n :: n in request.doc.nodes ==> RetryEnds(env, n) && n.retry <= MAX_U32
    ensures fresh(run) && WellRun(run, outcome) && run.control.finished
    ensures run.plan.doc == request.doc && run.seeded == SeededVariables(request.doc, request.overrides)
    ensures run.plan == PlanOf(request, run.plan.entry)
    ensures WorkflowGraph.EntryNode(request.doc).Some? ==>
      run.plan.entry == WorkflowGraph.EntryNode(request.doc).value.id
    ensures run.plan.registry == request.registry && run.plan.guard == request.guard && run.plan.startPaused == request.startPaused
    ensures run.plan.firstOutput == request.firstOutput && run.plan.maxNodes == request.options.maxNodes
    ensures forall n :: n in run.seeded <==> n in request.doc.variables || n in request.overrides
    ensures forall n :: n in request.overrides ==> run.seeded[n] == request.overrides[n]
    ensures forall n :: n in request.doc.variables && n !in request.overrides ==> run.seeded[n] == request.doc.variables[n].value
    ensures request.options.validate && !request.valid ==> TurnedDown(outcome, "E_VALIDATION")
    ensures
      var unfit, entry := request.options.validate && !request.valid, WorkflowGraph.EntryNode(request.doc);
      && (!unfit && entry.None? ==> TurnedDown(outcome, "E_NO_ENTRY_POINT"))
      && (!unfit && entry.Some? && WorkflowGraph.ScheduleOf(request.doc).Cycle? ==> TurnedDown(outcome, "E_GRAPH"))
    ensures Acyclic(ControlArcs(request.doc.edges, Ids(request.doc.nodes))) ==> OnePass(run, outcome)
    ensures !WorkflowGraph.DuplicateRoot(request.doc) ==> OnePass(run, outcome)
    ensures outcome.status == RunStatus.Cancelled ==> outcome.failure.Some? && outcome.failure.value.code == "E_CANCELLED"
    ensures outcome.status == Completed ==>
      (Acyclic(ControlArcs(request.doc.edges, Ids(request.doc.nodes))) <==> !WorkflowGraph.DuplicateRoot(request.doc))
  {
    hide WellRun, OnePass, SeededVariables, RetryEnds, WorkflowGraph.ValidSchedule, WorkflowGraph.DuplicateRoot, Acyclic,
         Observe, OnEvent, Secrets, WorkflowGraph.ScheduleOf;
    var seeded := SeededVariables(request.doc, request.overrides);
    OverridesWin(request.doc, request.overrides);
    var start := WorkflowGraph.EntryNode(request.doc);
    run := new WorkflowRun(PlanOf(request, if start.Some? then start.value.id else ""), seeded, env, request.runId);
    if request.options.validate && !request.valid {
      outcome := run.Abort("E_VALIDATION", "workflow failed validation");
      return;
    }
    if start.None? {
      outcome := run.Abort("E_NO_ENTRY_POINT", "workflow has no entry point");
      return;
    }
    var schedule := WorkflowGraph.TopologicalOrder(request.doc);
    if schedule.Cycle? {
      outcome := run.Abort("E_GRAPH", "cycle detected");
      return;
    }
    outcome := run.Conduct(schedule.order);
  }
}
