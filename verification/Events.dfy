// Node errors, execution events, and the bus that numbers and publishes them.
module Events {
  import opened Digraph
  import opened Words
  import opened Workflow
  import Json

  datatype NodeError =
    | InvalidConfig(detail: string)
    | PermissionDenied(capability: string, reason: string)
    | Cancelled
    | Timeout
    | Execution(detail: string)
    | Io(detail: string)
    | Unsupported(detail: string)
  {
    function Code(): string {
      match this
      case InvalidConfig(_) => "E_INVALID_CONFIG"
      case PermissionDenied(_, _) => "E_PERMISSION_DENIED"
      case Cancelled => "E_CANCELLED"
      case Timeout => "E_TIMEOUT"
      case Execution(_) => "E_EXECUTION"
      case Io(_) => "E_IO"
      case Unsupported(_) => "E_UNSUPPORTED"
    }

    function Message(): string {
      match this
      case InvalidConfig(detail) => "invalid configuration: " + detail
      case PermissionDenied(capability, reason) => "permission denied for capability `" + capability + "`: " + reason
      case Cancelled => "node execution cancelled"
      case Timeout => "node execution timed out"
      case Execution(detail) => "execution failed: " + detail
      case Io(detail) => "io error: " + detail
      case Unsupported(detail) => "unsupported operation: " + detail
    }

    predicate Retryable() {
      Timeout? || Io?
    }
  }

  datatype Event =
    | RunStarted(workflowId: string)
    | RunPaused
    | NodeStarted(nodeId: Id, nodeType: string, config: Json.Value, resolvedConfig: Json.Value,
                  inputs: Json.Scope, variablesBefore: Json.Scope, timeoutMs: Option<nat>)
    | NodeProgress(nodeId: Id, note: string)
    | NodeFinished(nodeId: Id, outputs: Json.Scope, variablesAfter: Json.Scope)
    | NodeFailed(nodeId: Id, code: string, message: string, retryable: bool, variablesAfter: Json.Scope)
    | EdgeActivated(edgeId: string, source: Id, target: Id, branch: EdgeBranch)
    | DataTransferred(edgeId: string, source: Id, target: Id, sourcePort: string, targetPort: string, value: Json.Value)
    | Log(message: string)
    | CapabilityDecision(capability: string, decision: string)
    | RunCancelled(reason: string)
    | RunCompleted(nodesExecuted: nat)
    | RunFailed(code: string, message: string)

  predicate IsTerminal(e: Event) {
    e.RunCancelled? || e.RunCompleted? || e.RunFailed?
  }

  /** Events that say nothing about the progress of the run and may come from inside an executor. */
  predicate IsChatter(e: Event) {
    e.Log? || e.NodeProgress? || e.CapabilityDecision?
  }

  datatype Envelope = Envelope(runId: string, number: nat, event: Event)

  ghost function Payloads(envelopes: seq<Envelope>): seq<Event> {
    seq(|envelopes|, i requires 0 <= i < |envelopes| => envelopes[i].event)
  }

  class EventBus {
    const runId: string
    var next: nat
    var sink: seq<Envelope>

    ghost predicate Valid()
      reads this
    {
      next == |sink| % U64 && forall i :: 0 <= i < |sink| ==> sink[i].runId == runId && sink[i].number == i % U64
    }

    constructor (runId: string)
      ensures Valid() && sink == [] && this.runId == runId
    {
      this.runId, next, sink := runId, 0, [];
    }

    /** Sequence numbers are the positions in the stream, modulo the 64-bit word. */
    method Emit(event: Event)
      requires Valid()
      modifies this
      ensures Valid()
      ensures Payloads(sink) == Payloads(old(sink)) + [event]
    {
      var number := next;
      next := (next + 1) % U64;
      sink := sink + [Envelope(runId, number, event)];
      WrapSuccessor(|old(sink)|);
    }
  }

  lemma WrapSuccessor(n: nat)
    ensures (n % U64 + 1) % U64 == (n + 1) % U64
  {
    var q, r := n / U64, n % U64;
    assert n == q * U64 + r;
    if r + 1 == U64 {
      assert n + 1 == (q + 1) * U64;
    } else {
      assert n + 1 == q * U64 + (r + 1);
    }
  }
}
