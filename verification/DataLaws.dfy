// How values travel along data edges: which transfers come before a start, in what order, with what
// values, and what the inputs are in the end. Everything is said of the document's own edges.
module DataLaws {
  import opened Digraph
  import opened EndLaws
  import opened Events
  import opened OrderedSets
  import opened RunLaws
  import opened RunSteps
  import opened RunTrace
  import opened Workflow
  import Json

  /** A data edge into the node with both of its ports named. */
  predicate Feeds(e: Edge, id: Id) {
    e.kind == Data && e.target == id && e.sourcePort.Some? && e.targetPort.Some?
  }

  function Feeding(doc: Document, id: Id): seq<Edge> {
    Kept(doc.edges, (e: Edge) => Feeds(e, id))
  }

  function TransfersIn(events: seq<Event>): seq<Event> {
    Kept(events, (e: Event) => e.DataTransferred?)
  }

  lemma PortedHead(head: Edge, rest: seq<Edge>)
    ensures PortedEdges([head] + rest) ==
      (if head.sourcePort.Some? && head.targetPort.Some? then [head] else []) + PortedEdges(rest)
  {
    assert ([head] + rest)[1..] == rest;
  }

  /** The edges the engine looks at are the document's edges that feed the node, in document order. */
  lemma {:induction false} InflowIsFeeding(edges: seq<Edge>, id: Id)
    ensures PortedEdges(DataEdgesTo(edges, id)) == Kept(edges, (e: Edge) => Feeds(e, id))
  {
    if edges != [] {
      var head, rest := edges[0], edges[1..];
      assert edges == [head] + rest;
      InflowIsFeeding(rest, id);
      KeptCons(head, rest, (e: Edge) => Feeds(e, id));
      PortedHead(head, DataEdgesTo(rest, id));
      assert [] + DataEdgesTo(rest, id) == DataEdgesTo(rest, id);
    }
  }

  // ------------------------------------------------- what a visit publishes

  /** The transfer carries the edge. */
  ghost predicate Along(e: Event, edge: Edge) {
    && e.DataTransferred? && edge.sourcePort.Some? && edge.targetPort.Some?
    && e.edgeId == edge.id && e.source == edge.source && e.target == edge.target
    && e.sourcePort == edge.sourcePort.value && e.targetPort == edge.targetPort.value
  }

  /** While a node waits to start, the transfers since its visit are those of its first feeding edges. */
  ghost predicate Carried(plan: Plan, m: Monitor, since: seq<Event>) {
    m.phase.At? ==>
      && TransfersIn(since) == m.phase.transfers && |m.phase.transfers| <= |Inflow(plan, m.phase.node.id)|
      && forall k :: 0 <= k < |m.phase.transfers| ==>
           m.phase.transfers[k] == Transfer(m.outputs, Inflow(plan, m.phase.node.id)[k])
  }

  lemma CarriedTransfer(plan: Plan, m: Monitor, e: Event, since: seq<Event>)
    requires e.DataTransferred? && !OnTransferred(plan, m, e).phase.Rejected? && Carried(plan, m, since)
    ensures Carried(plan, OnTransferred(plan, m, e), since + [e])
    ensures m.phase.At? && |TransfersIn(since)| < |Inflow(plan, m.phase.node.id)|
    ensures e == Transfer(m.outputs, Inflow(plan, m.phase.node.id)[|TransfersIn(since)|])
  {
    hide Inflow, Transfer;
    KeptSnoc(since, e, (e: Event) => e.DataTransferred?);
  }

  lemma CarriedQuiet(plan: Plan, m: Monitor, n: Monitor, e: Event, since: seq<Event>)
    requires Carried(plan, m, since) && !e.DataTransferred?
    requires n.phase.At? ==> m.phase.At? && n.phase.node == m.phase.node && n.phase.transfers == m.phase.transfers
    requires n.outputs == m.outputs || !n.phase.At?
    ensures Carried(plan, n, since + [e])
  {
    hide Inflow, Transfer;
    KeptSnoc(since, e, (e: Event) => e.DataTransferred?);
  }

  lemma CarriedEvent(plan: Plan, m: Monitor, e: Event, c: bool, since: seq<Event>)
    requires !OnEvent(plan, m, e, c).phase.Rejected? && Carried(plan, m, since)
    ensures Carried(plan, OnEvent(plan, m, e, c), since + [e])
  {
    hide OnStarted, OnFinished, OnTransferred, OnFailed, OnTerminal, OnActivated, OnPaused, Carried;
    match e
    case DataTransferred(_, _, _, _, _, _) => CarriedTransfer(plan, m, e, since);
    case NodeStarted(_, _, _, _, _, _, _) =>
      StartShape(plan, m, e);
      CarriedQuiet(plan, m, OnEvent(plan, m, e, c), e, since);
    case NodeFinished(_, _, _) =>
      FinishShape(plan, m, e);
      CarriedQuiet(plan, m, OnEvent(plan, m, e, c), e, since);
    case _ =>
      QuietEvent(plan, m, e, c);
      CarriedQuiet(plan, m, OnEvent(plan, m, e, c), e, since);
  }

  lemma CarriedStep(plan: Plan, m: Monitor, entry: Entry, since: seq<Event>)
    requires !Observe(plan, m, entry).phase.Rejected? && !entry.step.Emit? && Carried(plan, m, since)
    ensures Carried(plan, Observe(plan, m, entry), if entry.step.Visit? then [] else since)
  {
    hide Observe;
    if entry.step.Visit? {
      VisitOnly(plan, m, entry);
    } else {
      SteadyStep(plan, m, entry);
    }
  }

  lemma {:induction false} TransfersAreCarried(plan: Plan, scope: Json.Scope, trace: seq<Entry>)
    requires Accepted(plan, scope, trace)
    ensures Carried(plan, Replay(plan, scope, trace), SinceVisit(trace))
  {
    hide Observe, OnEvent, Carried;
    if trace == [] {
      NothingCarried(plan, scope);
    } else {
      AcceptedPrefix(plan, scope, trace);
      var init, last := trace[..|trace| - 1], trace[|trace| - 1];
      TransfersAreCarried(plan, scope, init);
      var m := Replay(plan, scope, init);
      if last.step.Emit? {
        EventObserved(plan, m, last.step.event, last.cancelled);
        CarriedEvent(plan, m, last.step.event, last.cancelled, SinceVisit(init));
      } else {
        CarriedStep(plan, m, last, SinceVisit(init));
      }
    }
  }

  lemma NothingCarried(plan: Plan, scope: Json.Scope)
    ensures Carried(plan, Begin(plan, scope), [])
  {
  }

  // --------------------------------------------------------------- theorems

  lemma TransferIsAlong(outputs: map<Id, Json.Scope>, edge: Edge, id: Id)
    requires Feeds(edge, id)
    ensures Along(Transfer(outputs, edge), edge)
    ensures Transfer(outputs, edge).value == PortValue(outputs, edge.source, edge.sourcePort.value)
  {
  }

  /** The node a start or a transfer belongs to is the one visited last. */
  lemma WaitingNode(plan: Plan, scope: Json.Scope, trace: seq<Entry>)
    requires Accepted(plan, scope, trace) && Replay(plan, scope, trace).phase.At?
    ensures LastVisit(trace) == Replay(plan, scope, trace).phase.node.id
  {
    hide Observe, VisitedIn;
    EverythingIsCounted(plan, scope, trace);
    VisitsAreRecorded(plan, scope, trace);
  }

  /** One transfer along each edge, in order, with what the source has on record for the port, or null. */
  ghost predicate Fed(shown: seq<Event>, fed: seq<Edge>, outputs: map<Id, Json.Scope>) {
    && |shown| == |fed|
    && forall k :: 0 <= k < |fed| ==>
         && Along(shown[k], fed[k])
         && shown[k].value == if fed[k].source in outputs && shown[k].sourcePort in outputs[fed[k].source]
                              then outputs[fed[k].source][shown[k].sourcePort] else Json.Null
  }

  lemma InflowFeeds(plan: Plan, id: Id, outputs: map<Id, Json.Scope>)
    ensures
      var fed := Feeding(plan.doc, id);
      && Inflow(plan, id) == fed
      && forall shown :: |shown| == |fed| && (forall k :: 0 <= k < |fed| ==> shown[k] == Transfer(outputs, fed[k])) ==>
           Fed(shown, fed, outputs)
  {
    var fed := Feeding(plan.doc, id);
    InflowIsFeeding(plan.doc.edges, id);
    FeedingFeeds(plan.doc, id);
    forall k | 0 <= k < |fed|
      ensures Along(Transfer(outputs, fed[k]), fed[k])
      ensures Transfer(outputs, fed[k]).value == PortValue(outputs, fed[k].source, fed[k].sourcePort.value)
    {
      TransferIsAlong(outputs, fed[k], id);
    }
  }

  lemma FeedingFeeds(doc: Document, id: Id)
    ensures forall k :: 0 <= k < |Feeding(doc, id)| ==> Feeds(Feeding(doc, id)[k], id)
  {
    KeptIsExact(doc.edges, (e: Edge) => Feeds(e, id));
    assert forall k :: 0 <= k < |Feeding(doc, id)| ==> Feeding(doc, id)[k] in Feeding(doc, id);
  }

  /**
   * A transfer is published only for the node visited last, and only as the next of its feeding edges;
   * its value is what the stream last reported of the source's port.
   */
  lemma TransfersFollowTheEdges(plan: Plan, scope: Json.Scope, trace: seq<Entry>, i: nat)
    requires Accepted(plan, scope, trace) && i < |trace|
    requires trace[i].step.Emit? && trace[i].step.event.DataTransferred?
    ensures
      var e, fed := trace[i].step.event, Feeding(plan.doc, LastVisit(trace[..i]));
      var k := |TransfersIn(SinceVisit(trace[..i]))|;
      k < |fed| && Along(e, fed[k]) && Offers(Emitted(trace[..i]), e.source, e.sourcePort, e.value)
  {
    hide Observe, OnEvent, SinceVisit, LastVisit, Offers, RecordedOutputs, TransfersIn, PortValue, Carried;
    AcceptedUpTo(plan, scope, trace, i);
    AcceptedUpTo(plan, scope, trace, i + 1);
    assert trace[..i + 1][..i] == trace[..i];
    var m, e := Replay(plan, scope, trace[..i]), trace[i].step.event;
    EventObserved(plan, m, e, trace[i].cancelled);
    TransfersAreCarried(plan, scope, trace[..i]);
    TransferNext(plan, m, e, trace[i].cancelled, SinceVisit(trace[..i]));
    WaitingNode(plan, scope, trace[..i]);
    InflowIsFeeding(plan.doc.edges, m.phase.node.id);
    FeedingFeeds(plan.doc, m.phase.node.id);
    OutputsAreRecorded(plan, scope, trace[..i]);
    var edge := Feeding(plan.doc, m.phase.node.id)[|TransfersIn(SinceVisit(trace[..i]))|];
    TransferIsAlong(m.outputs, edge, m.phase.node.id);
    RecordedIsOffered(Emitted(trace[..i]), e.source, e.sourcePort);
  }

  lemma TransferNext(plan: Plan, m: Monitor, e: Event, c: bool, since: seq<Event>)
    requires e.DataTransferred? && !OnEvent(plan, m, e, c).phase.Rejected? && Carried(plan, m, since)
    ensures m.phase.At? && |TransfersIn(since)| < |Inflow(plan, m.phase.node.id)|
    ensures e == Transfer(m.outputs, Inflow(plan, m.phase.node.id)[|TransfersIn(since)|])
  {
    hide OnTransferred, Carried;
    CarriedTransfer(plan, m, e, since);
  }

  /** What a start has gathered: all that feeds the node. */
  lemma StartGathered(plan: Plan, m: Monitor, e: Event, c: bool, since: seq<Event>)
    requires e.NodeStarted? && !OnEvent(plan, m, e, c).phase.Rejected? && Carried(plan, m, since)
    ensures m.phase.At? && e.nodeId == m.phase.node.id && e.inputs == FoldInputs(TransfersIn(since))
    ensures
      var shown, flow := TransfersIn(since), Inflow(plan, e.nodeId);
      |shown| == |flow| && forall k :: 0 <= k < |flow| ==> shown[k] == Transfer(m.outputs, flow[k])
  {
    hide Inflow, FoldInputs, ConditionHolds, Transfer, TransfersIn;
  }

  /**
   * Before a node starts there is exactly one transfer, since its visit, along each data edge of the
   * document that leads into it and names both ports, in document order, with what the stream last
   * reported of the source's port; and its inputs are the values written last to each target port.
   */
  lemma StartsAreFed(plan: Plan, scope: Json.Scope, trace: seq<Entry>, i: nat)
    requires Accepted(plan, scope, trace) && i < |trace| && trace[i].step.Emit? && trace[i].step.event.NodeStarted?
    ensures
      var e := trace[i].step.event;
      var shown, fed := TransfersIn(SinceVisit(trace[..i])), Feeding(plan.doc, e.nodeId);
      && e.nodeId == LastVisit(trace[..i])
      && |shown| == |fed| && (forall k :: 0 <= k < |fed| ==> Along(shown[k], fed[k]))
      && (forall k :: 0 <= k < |fed| ==>
            Offers(Emitted(trace[..i]), fed[k].source, fed[k].sourcePort.value, shown[k].value))
      && Collects(e.inputs, shown)
  {
    hide Observe, OnEvent, SinceVisit, LastVisit, Offers, RecordedOutputs, TransfersIn, PortValue, Carried, Collects,
         FoldInputs, Transfer;
    AcceptedUpTo(plan, scope, trace, i);
    AcceptedUpTo(plan, scope, trace, i + 1);
    assert trace[..i + 1][..i] == trace[..i];
    var m, e, since := Replay(plan, scope, trace[..i]), trace[i].step.event, SinceVisit(trace[..i]);
    EventObserved(plan, m, e, trace[i].cancelled);
    TransfersAreCarried(plan, scope, trace[..i]);
    StartGathered(plan, m, e, trace[i].cancelled, since);
    WaitingNode(plan, scope, trace[..i]);
    InflowIsFeeding(plan.doc.edges, e.nodeId);
    FeedingFeeds(plan.doc, e.nodeId);
    OutputsAreRecorded(plan, scope, trace[..i]);
    FoldCollects(TransfersIn(since));
    var fed := Feeding(plan.doc, e.nodeId);
    forall k | 0 <= k < |fed|
      ensures Along(TransfersIn(since)[k], fed[k])
      ensures Offers(Emitted(trace[..i]), fed[k].source, fed[k].sourcePort.value, TransfersIn(since)[k].value)
    {
      TransferIsAlong(m.outputs, fed[k], e.nodeId);
      RecordedIsOffered(Emitted(trace[..i]), fed[k].source, fed[k].sourcePort.value);
    }
  }

  /** A started node has an input on a port exactly if some feeding edge names the port. */
  lemma InputsAreThePortsFed(plan: Plan, scope: Json.Scope, trace: seq<Entry>, i: nat, port: string)
    requires Accepted(plan, scope, trace) && i < |trace| && trace[i].step.Emit? && trace[i].step.event.NodeStarted?
    ensures
      var e := trace[i].step.event;
      port in e.inputs <==>
        exists edge :: edge in plan.doc.edges && edge.kind == Data && edge.target == e.nodeId &&
                       edge.sourcePort.Some? && edge.targetPort == Some(port)
  {
    hide Observe, SinceVisit, LastVisit, Offers, TransfersIn, Accepted, Emitted;
    StartsAreFed(plan, scope, trace, i);
    PortsAreFed(plan.doc.edges, trace[i].step.event.nodeId, trace[i].step.event.inputs, TransfersIn(SinceVisit(trace[..i])), port);
  }

  lemma PortsAreFed(edges: seq<Edge>, id: Id, inputs: Json.Scope, shown: seq<Event>, port: string)
    requires
      var fed := Kept(edges, (e: Edge) => Feeds(e, id));
      |shown| == |fed| && forall k :: 0 <= k < |fed| ==> Along(shown[k], fed[k])
    requires Collects(inputs, shown)
    ensures port in inputs <==>
      exists e :: e in edges && e.kind == Data && e.target == id && e.sourcePort.Some? && e.targetPort == Some(port)
  {
    var fed := Kept(edges, (e: Edge) => Feeds(e, id));
    KeptIsExact(edges, (e: Edge) => Feeds(e, id));
    if port in inputs {
      var k: nat :| WrittenAt(shown, port, k);
      assert fed[k] in fed && Along(shown[k], fed[k]);
    }
    if e :| e in edges && Feeds(e, id) && e.targetPort == Some(port) {
      assert e in fed;
      var k: nat :| k < |fed| && fed[k] == e;
      assert WrittenAt(shown, port, k);
    }
  }
}
