// What an accepted trace guarantees. Each law speaks of the published events or of the recorded
// steps alone; the acceptor is only the bridge from the engine to them.
module RunLaws {
  import opened Digraph
  import opened Workflow
  import opened Events
  import opened RunTrace
  import opened RunSteps
  import Json
  import Retry

  lemma RejectionLasts(plan: Plan, m: Monitor, entry: Entry)
    requires m.phase.Rejected?
    ensures Observe(plan, m, entry).phase.Rejected?
  {
  }

  /** Acceptance is inherited by prefixes. */
  lemma AcceptedPrefix(plan: Plan, scope: Json.Scope, trace: seq<Entry>)
    requires Accepted(plan, scope, trace) && trace != []
    ensures Accepted(plan, scope, trace[..|trace| - 1])
  {
    hide Observe;
    var m := Replay(plan, scope, trace[..|trace| - 1]);
    if m.phase.Rejected? {
      RejectionLasts(plan, m, trace[|trace| - 1]);
    }
  }

  lemma {:induction false} AcceptedUpTo(plan: Plan, scope: Json.Scope, trace: seq<Entry>, k: nat)
    requires Accepted(plan, scope, trace) && k <= |trace|
    ensures Accepted(plan, scope, trace[..k])
    decreases |trace|
  {
    hide Accepted;
    if k == |trace| {
      assert trace[..k] == trace;
    } else {
      AcceptedPrefix(plan, scope, trace);
      AcceptedUpTo(plan, scope, trace[..|trace| - 1], k);
      assert trace[..|trace| - 1][..k] == trace[..k];
    }
  }

  // ------------------------------------------- one window at a time, one end

  datatype Scan = Closed | Open(id: Id) | Over | Garbled

  /** The shape of a published stream, read event by event. */
  function ScanStep(s: Scan, e: Event): Scan {
    match s
    case Closed =>
      if e.NodeStarted? then Open(e.nodeId)
      else if e.NodeFinished? then Garbled
      else if IsTerminal(e) then Over
      else Closed
    case Open(id) =>
      if (e.NodeFinished? || e.NodeFailed?) && e.nodeId == id then Closed
      else if e.RunCancelled? then Over
      else if IsChatter(e) then s
      else Garbled
    case _ => Garbled
  }

  function ScanAll(events: seq<Event>): Scan {
    if events == [] then Closed else ScanStep(ScanAll(events[..|events| - 1]), events[|events| - 1])
  }

  function ScanOf(phase: Phase): Scan {
    match phase
    case Window(node, _, _, _) => Open(node.id)
    case Ended => Over
    case Rejected => Garbled
    case _ => Closed
  }

  lemma ScanFollowsTerminal(plan: Plan, m: Monitor, e: Event, c: bool)
    requires IsTerminal(e) && !OnTerminal(plan, m, e, c).phase.Rejected?
    ensures ScanStep(ScanOf(m.phase), e) == ScanOf(OnTerminal(plan, m, e, c).phase)
  {
    hide ConditionHolds, HasFailureRoute;
  }

  lemma ScanFollowsFailure(plan: Plan, m: Monitor, e: Event)
    requires e.NodeFailed? && !OnFailed(plan, m, e).phase.Rejected?
    ensures ScanStep(ScanOf(m.phase), e) == ScanOf(OnFailed(plan, m, e).phase)
  {
    hide ConditionError, LastError;
  }

  lemma StartShape(plan: Plan, m: Monitor, e: Event)
    requires e.NodeStarted? && !OnStarted(plan, m, e).phase.Rejected?
    ensures m.phase.At? && OnStarted(plan, m, e).phase == Window(m.phase.node, 0, false, None) && e.nodeId == m.phase.node.id
  {
    hide ConditionHolds, Inflow, FoldInputs;
  }

  lemma FinishShape(plan: Plan, m: Monitor, e: Event)
    requires e.NodeFinished? && !OnFinished(plan, m, e).phase.Rejected?
    ensures m.phase.Window? && OnFinished(plan, m, e).phase == Finished(m.phase.node) && e.nodeId == m.phase.node.id
  {
    hide Publish;
  }

  lemma TransferShape(plan: Plan, m: Monitor, e: Event)
    requires e.DataTransferred? && !OnTransferred(plan, m, e).phase.Rejected?
    ensures m.phase.At? && OnTransferred(plan, m, e).phase.At? && OnTransferred(plan, m, e).phase.node == m.phase.node
  {
    hide Inflow, Transfer;
  }

  lemma PauseShape(plan: Plan, m: Monitor)
    requires !OnPaused(plan, m).phase.Rejected?
    ensures (m.phase == Ready(true) && OnPaused(plan, m).phase == Ready(false)) || (m.phase.At? && OnPaused(plan, m).phase == m.phase)
  {
  }

  lemma ScanFollowsEvent(plan: Plan, m: Monitor, e: Event, c: bool)
    requires !OnEvent(plan, m, e, c).phase.Rejected?
    ensures ScanStep(ScanOf(m.phase), e) == ScanOf(OnEvent(plan, m, e, c).phase)
  {
    hide OnTerminal, OnStarted, OnFinished, OnFailed, OnTransferred, OnPaused;
    match e
    case NodeStarted(_, _, _, _, _, _, _) => StartShape(plan, m, e);
    case NodeFinished(_, _, _) => FinishShape(plan, m, e);
    case DataTransferred(_, _, _, _, _, _) => TransferShape(plan, m, e);
    case RunPaused => PauseShape(plan, m);
    case NodeFailed(_, _, _, _, _) => ScanFollowsFailure(plan, m, e);
    case RunCancelled(_) => ScanFollowsTerminal(plan, m, e, c);
    case RunCompleted(_) => ScanFollowsTerminal(plan, m, e, c);
    case RunFailed(_, _) => ScanFollowsTerminal(plan, m, e, c);
    case _ =>
  }

  lemma ScanFollowsStep(plan: Plan, m: Monitor, entry: Entry)
    requires !Observe(plan, m, entry).phase.Rejected? && !entry.step.Emit?
    ensures ScanOf(m.phase) == ScanOf(Observe(plan, m, entry).phase)
  {
    hide Observe;
    if ClearsTheWay(entry.step) {
      ClearanceOnly(plan, m, entry);
    } else if Works(entry.step) {
      WorkOnly(plan, m, entry);
    } else {
      VisitOnly(plan, m, entry);
    }
  }

  lemma SnocEvents(trace: seq<Entry>)
    requires trace != []
    ensures
      var before, last := Emitted(trace[..|trace| - 1]), trace[|trace| - 1].step;
      Emitted(trace) == if last.Emit? then before + [last.event] else before
  {
    var before := Emitted(trace[..|trace| - 1]);
    assert before + [] == before;
  }

  /** The published stream has the shape above, and it is over exactly when the run has ended. */
  lemma {:induction false} StreamIsWellFormed(plan: Plan, scope: Json.Scope, trace: seq<Entry>)
    requires Accepted(plan, scope, trace)
    ensures ScanAll(Emitted(trace)) == ScanOf(Replay(plan, scope, trace).phase)
  {
    hide Observe, OnEvent;
    if trace != [] {
      AcceptedPrefix(plan, scope, trace);
      var init, last := trace[..|trace| - 1], trace[|trace| - 1];
      StreamIsWellFormed(plan, scope, init);
      SnocEvents(trace);
      var m := Replay(plan, scope, init);
      if last.step.Emit? {
        EventObserved(plan, m, last.step.event, last.cancelled);
        ScanFollowsEvent(plan, m, last.step.event, last.cancelled);
        assert Emitted(trace)[..|Emitted(trace)| - 1] == Emitted(init);
      } else {
        ScanFollowsStep(plan, m, last);
      }
    }
  }

  lemma {:induction false} ScanPrefixes(events: seq<Event>, k: nat)
    requires k <= |events| && ScanAll(events) != Garbled
    ensures ScanAll(events[..k]) != Garbled
    ensures k < |events| ==> ScanAll(events[..k]) != Over
    decreases |events| - k
  {
    if k < |events| {
      ScanPrefixes(events, k + 1);
      assert events[..k + 1][..k] == events[..k];
    } else {
      assert events[..k] == events;
    }
  }

  lemma LastScanned(events: seq<Event>, k: nat)
    requires k < |events|
    ensures ScanAll(events[..k + 1]) == ScanStep(ScanAll(events[..k]), events[k])
  {
    assert events[..k + 1][..k] == events[..k];
  }

  lemma TerminalIsOver(s: Scan, e: Event)
    requires ScanStep(s, e) != Garbled
    ensures IsTerminal(e) <==> ScanStep(s, e) == Over
  {
  }

  /** Reading the shape off: an accepted stream that is over has one terminal event, at its end. */
  lemma OneTerminalEventAtTheEnd(events: seq<Event>)
    requires ScanAll(events) == Over
    ensures events != [] && IsTerminal(events[|events| - 1])
    ensures forall i :: 0 <= i < |events| - 1 ==> !IsTerminal(events[i])
  {
    hide ScanStep, IsTerminal;
    forall i | 0 <= i < |events| - 1 ensures !IsTerminal(events[i]) {
      ScanPrefixes(events, i + 1);
      LastScanned(events, i);
      TerminalIsOver(ScanAll(events[..i]), events[i]);
    }
    assert events[..|events| - 1 + 1] == events;
    LastScanned(events, |events| - 1);
    TerminalIsOver(ScanAll(events[..|events| - 1]), events[|events| - 1]);
  }

  /**
   * Windows never nest and every one is closed by its own node, unless the run was cancelled: whatever
   * follows a start, before the matching end, is executor chatter or the final cancellation.
   */
  lemma {:induction false} WindowsDoNotNest(events: seq<Event>, i: nat, j: nat)
    requires ScanAll(events) != Garbled
    requires i < j < |events| && events[i].NodeStarted?
    requires forall k :: i < k < j ==> IsChatter(events[k])
    ensures
      || IsChatter(events[j])
      || ((events[j].NodeFinished? || events[j].NodeFailed?) && events[j].nodeId == events[i].nodeId)
      || (events[j].RunCancelled? && j == |events| - 1)
  {
    WindowStaysOpen(events, i, j);
    ScanPrefixes(events, j + 1);
    assert events[..j + 1][..j] == events[..j];
  }

  lemma {:induction false} WindowStaysOpen(events: seq<Event>, i: nat, j: nat)
    requires ScanAll(events) != Garbled
    requires i < j <= |events| && events[i].NodeStarted?
    requires forall k :: i < k < j ==> IsChatter(events[k])
    ensures ScanAll(events[..j]) == Open(events[i].nodeId)
  {
    ScanPrefixes(events, j);
    ScanPrefixes(events, j - 1);
    assert events[..j][..j - 1] == events[..j - 1];
    if j > i + 1 {
      WindowStaysOpen(events, i, j - 1);
    }
  }

  /** `j` closes the window that `i` opened: its node ends, or the run is cancelled on the spot. */
  ghost predicate Closes(events: seq<Event>, i: nat, j: nat)
    requires i < |events| && events[i].NodeStarted?
  {
    && i < j < |events| && (forall k :: i < k < j ==> IsChatter(events[k]))
    && (((events[j].NodeFinished? || events[j].NodeFailed?) && events[j].nodeId == events[i].nodeId) ||
        (events[j].RunCancelled? && j == |events| - 1))
  }

  /** In a stream that is over, every window is closed. */
  lemma {:induction false} EveryWindowCloses(events: seq<Event>, i: nat, from: nat) returns (j: nat)
    requires ScanAll(events) == Over && i < |events| && events[i].NodeStarted?
    requires i < from <= |events| && forall k :: i < k < from ==> IsChatter(events[k])
    ensures Closes(events, i, j)
    decreases |events| - from
  {
    assert events[..|events|] == events;
    WindowStaysOpen(events, i, from);
    WindowsDoNotNest(events, i, from);
    if IsChatter(events[from]) {
      j := EveryWindowCloses(events, i, from + 1);
    } else {
      j := from;
    }
  }

  // ----------------------------------------------- events of little effect

  /** A node has been visited and not finished yet. */
  predicate Busy(phase: Phase) {
    phase.At? || phase.Denied? || phase.Window?
  }

  predicate Underway(phase: Phase) {
    phase.Window? || phase.Finished? || phase.Broken? || phase.Routing?
  }

  function NodeOf(phase: Phase): Node
    requires Busy(phase) || Underway(phase)
  {
    phase.node
  }

  function Gathered(phase: Phase): seq<Event> {
    if phase.At? then phase.transfers else []
  }

  /** Same memory, no transfers pending on either side, and no node taken up. */
  ghost predicate Quiet(m: Monitor, n: Monitor) {
    && n.outputs == m.outputs && n.executed == m.executed && n.visited == m.visited
    && Gathered(m.phase) == [] && Gathered(n.phase) == []
    && (Busy(n.phase) ==> Busy(m.phase)) && (n.phase.At? ==> m.phase.At?)
    && (Busy(n.phase) || Underway(n.phase) ==>
          (Busy(m.phase) || Underway(m.phase)) && NodeOf(n.phase) == NodeOf(m.phase))
  }

  lemma QuietTerminal(plan: Plan, m: Monitor, e: Event, c: bool)
    requires IsTerminal(e) && !OnTerminal(plan, m, e, c).phase.Rejected?
    ensures Quiet(m, OnTerminal(plan, m, e, c))
  {
    hide ConditionHolds, HasFailureRoute;
  }

  lemma QuietFailure(plan: Plan, m: Monitor, e: Event)
    requires e.NodeFailed? && !OnFailed(plan, m, e).phase.Rejected?
    ensures Quiet(m, OnFailed(plan, m, e))
  {
    hide ConditionError, LastError, FailureEvent, Retry.KeepsRetrying;
    match m.phase
    case At(_, _) =>
    case Denied(_, _) =>
    case Window(_, _, _, _) =>
    case _ =>
  }

  lemma QuietActivation(plan: Plan, m: Monitor, e: Event)
    requires e.EdgeActivated? && !OnActivated(m, e).phase.Rejected?
    ensures Quiet(m, OnActivated(m, e))
  {
  }

  lemma QuietPause(plan: Plan, m: Monitor)
    requires !OnPaused(plan, m).phase.Rejected?
    ensures Quiet(m, OnPaused(plan, m))
  {
    hide ConditionHolds;
  }

  lemma QuietEvent(plan: Plan, m: Monitor, e: Event, c: bool)
    requires !e.DataTransferred? && !e.NodeFinished? && !e.NodeStarted?
    requires !OnEvent(plan, m, e, c).phase.Rejected?
    ensures Quiet(m, OnEvent(plan, m, e, c))
  {
    hide OnStarted, OnFinished, OnTransferred, OnFailed, OnTerminal, OnActivated, OnPaused;
    match e
    case NodeFailed(_, _, _, _, _) => QuietFailure(plan, m, e);
    case EdgeActivated(_, _, _, _) => QuietActivation(plan, m, e);
    case RunPaused => QuietPause(plan, m);
    case RunCancelled(_) => QuietTerminal(plan, m, e, c);
    case RunCompleted(_) => QuietTerminal(plan, m, e, c);
    case RunFailed(_, _) => QuietTerminal(plan, m, e, c);
    case _ =>
  }

  // ------------------------------------------------- data edges and the log

  /** What the stream says each node last produced. */
  function RecordedOutputs(events: seq<Event>): map<Id, Json.Scope> {
    if events == [] then map[]
    else
      var last := events[|events| - 1];
      var before := RecordedOutputs(events[..|events| - 1]);
      if last.NodeFinished? then before[last.nodeId := last.outputs] else before
  }

  /** The unbroken run of transfers at the end of a stream. */
  function TrailingTransfers(events: seq<Event>): seq<Event> {
    if events == [] || !events[|events| - 1].DataTransferred? then []
    else TrailingTransfers(events[..|events| - 1]) + [events[|events| - 1]]
  }

  /** What one more event must satisfy, given the stream before it. */
  ghost predicate DataAgrees(before: seq<Event>, e: Event) {
    match e
    case DataTransferred(_, source, _, port, _, value) => value == PortValue(RecordedOutputs(before), source, port)
    case NodeStarted(_, _, _, _, inputs, _, _) => inputs == FoldInputs(TrailingTransfers(before))
    case _ => true
  }

  ghost predicate DataInStep(m: Monitor, events: seq<Event>) {
    m.outputs == RecordedOutputs(events) && Gathered(m.phase) == TrailingTransfers(events)
  }

  lemma DataStepTransfer(plan: Plan, m: Monitor, e: Event, before: seq<Event>)
    requires e.DataTransferred? && !OnTransferred(plan, m, e).phase.Rejected? && DataInStep(m, before)
    ensures DataAgrees(before, e) && DataInStep(OnTransferred(plan, m, e), before + [e])
  {
    hide Inflow, PortValue;
    assert (before + [e])[..|before|] == before;
  }

  lemma DataStepFinish(plan: Plan, m: Monitor, e: Event, before: seq<Event>)
    requires e.NodeFinished? && !OnFinished(plan, m, e).phase.Rejected? && DataInStep(m, before)
    ensures DataInStep(OnFinished(plan, m, e), before + [e])
  {
    hide Publish;
    assert (before + [e])[..|before|] == before;
  }

  lemma DataStepStart(plan: Plan, m: Monitor, e: Event, before: seq<Event>)
    requires e.NodeStarted? && !OnStarted(plan, m, e).phase.Rejected? && DataInStep(m, before)
    ensures DataAgrees(before, e) && DataInStep(OnStarted(plan, m, e), before + [e])
  {
    hide Inflow, FoldInputs, ConditionHolds;
    assert (before + [e])[..|before|] == before;
  }

  lemma DataStepOther(plan: Plan, m: Monitor, e: Event, c: bool, before: seq<Event>)
    requires !e.DataTransferred? && !e.NodeFinished? && !e.NodeStarted?
    requires !OnEvent(plan, m, e, c).phase.Rejected? && DataInStep(m, before)
    ensures DataInStep(OnEvent(plan, m, e, c), before + [e])
  {
    hide OnEvent;
    QuietEvent(plan, m, e, c);
    assert (before + [e])[..|before|] == before;
  }

  lemma DataStep(plan: Plan, m: Monitor, e: Event, c: bool, before: seq<Event>)
    requires !OnEvent(plan, m, e, c).phase.Rejected? && DataInStep(m, before)
    ensures DataAgrees(before, e) && DataInStep(OnEvent(plan, m, e, c), before + [e])
  {
    hide OnStarted, OnFinished, OnTransferred, OnFailed, OnTerminal, OnActivated, OnPaused, DataInStep, TrailingTransfers,
         RecordedOutputs;
    match e
    case DataTransferred(_, _, _, _, _, _) => DataStepTransfer(plan, m, e, before);
    case NodeFinished(_, _, _) => DataStepFinish(plan, m, e, before);
    case NodeStarted(_, _, _, _, _, _, _) => DataStepStart(plan, m, e, before);
    case _ => DataStepOther(plan, m, e, c, before);
  }

  lemma DataUntouched(plan: Plan, m: Monitor, entry: Entry)
    requires !Observe(plan, m, entry).phase.Rejected? && !entry.step.Emit?
    ensures Observe(plan, m, entry).outputs == m.outputs
    ensures Gathered(Observe(plan, m, entry).phase) == Gathered(m.phase)
  {
    if entry.step.Visit? {
      hide OnEvent, OnRoute, OnPoll, OnCall, OnReturn, OnLeave, OnSkip, OnDeny;
    } else {
      hide Observe;
      SteadyStep(plan, m, entry);
    }
  }

  lemma {:induction false} OutputsAreRecorded(plan: Plan, scope: Json.Scope, trace: seq<Entry>)
    requires Accepted(plan, scope, trace)
    ensures DataInStep(Replay(plan, scope, trace), Emitted(trace))
    ensures forall i :: 0 <= i < |Emitted(trace)| ==> DataAgrees(Emitted(trace)[..i], Emitted(trace)[i])
  {
    hide Observe, OnEvent, DataAgrees, RecordedOutputs, TrailingTransfers;
    if trace == [] {
      NothingRecorded();
    } else {
      AcceptedPrefix(plan, scope, trace);
      var init, last := trace[..|trace| - 1], trace[|trace| - 1];
      OutputsAreRecorded(plan, scope, init);
      SnocEvents(trace);
      var m, before := Replay(plan, scope, init), Emitted(init);
      if last.step.Emit? {
        EventObserved(plan, m, last.step.event, last.cancelled);
        DataStep(plan, m, last.step.event, last.cancelled, before);
        forall i | 0 <= i < |Emitted(trace)| ensures DataAgrees(Emitted(trace)[..i], Emitted(trace)[i]) {
          assert Emitted(trace)[..i] == before[..i];
        }
      } else {
        DataUntouched(plan, m, last);
      }
    }
  }

  lemma NothingRecorded()
    ensures RecordedOutputs([]) == map[] && TrailingTransfers([]) == []
  {
  }

  /** `events[j]` is the last report that the node has finished. */
  ghost predicate LastFinish(events: seq<Event>, id: Id, j: nat) {
    && j < |events| && events[j].NodeFinished? && events[j].nodeId == id
    && forall k :: j < k < |events| && events[k].NodeFinished? ==> events[k].nodeId != id
  }

  /** What a stream says a node offers on a port: what it reported last, and null for anything it did not report. */
  ghost predicate Offers(events: seq<Event>, source: Id, port: string, value: Json.Value) {
    && (forall j: nat :: LastFinish(events, source, j) ==>
          value == if port in events[j].outputs then events[j].outputs[port] else Json.Null)
    && ((forall j: nat :: !LastFinish(events, source, j)) ==> value == Json.Null)
  }

  lemma LastFinishSnoc(events: seq<Event>, id: Id, j: nat)
    requires events != []
    ensures
      var init, last := events[..|events| - 1], events[|events| - 1];
      LastFinish(events, id, j) <==>
        (j == |init| && last.NodeFinished? && last.nodeId == id) ||
        (LastFinish(init, id, j) && !(last.NodeFinished? && last.nodeId == id))
  {
    var init := events[..|events| - 1];
    if LastFinish(init, id, j) && !(events[|init|].NodeFinished? && events[|init|].nodeId == id) {
      forall k | j < k < |events| && events[k].NodeFinished? ensures events[k].nodeId != id {
        assert k < |init| ==> events[k] == init[k];
      }
    }
    if LastFinish(events, id, j) && j < |init| {
      forall k | j < k < |init| && init[k].NodeFinished? ensures init[k].nodeId != id {
        assert init[k] == events[k];
      }
    }
  }

  lemma {:induction false} RecordedIsLast(events: seq<Event>, id: Id)
    ensures id in RecordedOutputs(events) <==> exists j: nat :: LastFinish(events, id, j)
    ensures forall j: nat :: LastFinish(events, id, j) && id in RecordedOutputs(events) ==>
      RecordedOutputs(events)[id] == events[j].outputs
  {
    if events != [] {
      var init, last := events[..|events| - 1], events[|events| - 1];
      RecordedIsLast(init, id);
      forall j: nat ensures
        LastFinish(events, id, j) <==>
          (j == |init| && last.NodeFinished? && last.nodeId == id) ||
          (LastFinish(init, id, j) && !(last.NodeFinished? && last.nodeId == id))
      {
        LastFinishSnoc(events, id, j);
      }
      hide LastFinish;
      if last.NodeFinished? && last.nodeId == id {
        assert LastFinish(events, id, |init|);
      } else if id in RecordedOutputs(init) {
        var j: nat :| LastFinish(init, id, j);
        assert LastFinish(events, id, j);
      }
    }
  }

  lemma RecordedIsOffered(events: seq<Event>, source: Id, port: string)
    ensures Offers(events, source, port, PortValue(RecordedOutputs(events), source, port))
  {
    hide RecordedOutputs, LastFinish;
    RecordedIsLast(events, source);
  }

  /** The inputs hold exactly the ports written to, each with the value written last. */
  ghost predicate Collects(inputs: Json.Scope, transfers: seq<Event>) {
    && (forall p :: p in inputs <==> exists k: nat :: WrittenAt(transfers, p, k))
    && (forall k: nat, p :: WrittenLast(transfers, p, k) && p in inputs ==> inputs[p] == transfers[k].value)
  }

  ghost predicate WrittenAt(transfers: seq<Event>, port: string, k: nat) {
    k < |transfers| && transfers[k].DataTransferred? && transfers[k].targetPort == port
  }

  ghost predicate WrittenLast(transfers: seq<Event>, port: string, k: nat) {
    WrittenAt(transfers, port, k) && forall l: nat :: l > k ==> !WrittenAt(transfers, port, l)
  }

  lemma {:induction false} FoldCollects(transfers: seq<Event>)
    ensures Collects(FoldInputs(transfers), transfers)
  {
    if transfers != [] {
      var init, last := transfers[..|transfers| - 1], transfers[|transfers| - 1];
      FoldCollects(init);
      forall k: nat, p ensures WrittenAt(transfers, p, k) <==>
        WrittenAt(init, p, k) || (k == |init| && last.DataTransferred? && last.targetPort == p)
      {
      }
      CollectsSnoc(FoldInputs(init), init, last, transfers);
    }
  }

  lemma CollectsSnoc(inputs: Json.Scope, init: seq<Event>, last: Event, transfers: seq<Event>)
    requires Collects(inputs, init) && transfers == init + [last]
    requires forall k: nat, p :: WrittenAt(transfers, p, k) <==>
      WrittenAt(init, p, k) || (k == |init| && last.DataTransferred? && last.targetPort == p)
    ensures Collects(if last.DataTransferred? then inputs[last.targetPort := last.value] else inputs, transfers)
  {
    var after := if last.DataTransferred? then inputs[last.targetPort := last.value] else inputs;
    forall p ensures p in after <==> exists k: nat :: WrittenAt(transfers, p, k) {
      if last.DataTransferred? && last.targetPort == p {
        assert WrittenAt(transfers, p, |init|);
      } else if p in inputs {
        var k: nat :| WrittenAt(init, p, k);
        assert WrittenAt(transfers, p, k);
      }
    }
    forall k: nat, p | WrittenLast(transfers, p, k) && p in after ensures after[p] == transfers[k].value {
      if last.DataTransferred? && last.targetPort == p {
        assert WrittenAt(transfers, p, |init|);
      } else {
        assert WrittenAt(init, p, k) && WrittenLast(init, p, k);
      }
    }
  }

  /**
   * Every transferred value is what the stream last reported of the source's port, or null, and the
   * inputs of every start are the last values written by the transfers immediately before it.
   */
  lemma DataEdgesAgreeWithTheLog(plan: Plan, scope: Json.Scope, trace: seq<Entry>, i: nat)
    requires Accepted(plan, scope, trace) && i < |Emitted(trace)|
    ensures
      var events := Emitted(trace);
      && (events[i].DataTransferred? ==> Offers(events[..i], events[i].source, events[i].sourcePort, events[i].value))
      && (events[i].NodeStarted? ==> Collects(events[i].inputs, TrailingTransfers(events[..i])))
  {
    hide Offers, Collects, RecordedOutputs, TrailingTransfers, FoldInputs, PortValue;
    OutputsAreRecorded(plan, scope, trace);
    var e, before := Emitted(trace)[i], Emitted(trace)[..i];
    assert DataAgrees(before, e);
    if e.DataTransferred? {
      RecordedIsOffered(before, e.source, e.sourcePort);
    }
    FoldCollects(TrailingTransfers(before));
  }

  // ------------------------------------------------------------- counting

  function FinishedIn(events: seq<Event>): nat {
    if events == [] then 0
    else FinishedIn(events[..|events| - 1]) + (if events[|events| - 1].NodeFinished? then 1 else 0)
  }

  function StartedIn(events: seq<Event>): seq<Id> {
    if events == [] then []
    else StartedIn(events[..|events| - 1]) +
         (if events[|events| - 1].NodeStarted? then [events[|events| - 1].nodeId] else [])
  }

  /** Counters and visits, as they stand against the stream. */
  ghost predicate Counted(plan: Plan, m: Monitor, events: seq<Event>) {
    && m.executed == FinishedIn(events) && m.executed <= plan.maxNodes
    && (Busy(m.phase) ==> m.executed < plan.maxNodes)
    && (Busy(m.phase) || Underway(m.phase) ==> m.visited != [] && m.visited[|m.visited| - 1] == NodeOf(m.phase).id)
    && (forall id :: id in StartedIn(events) ==>
          id in if m.phase.At? then m.visited[..|m.visited| - 1] else m.visited)
    && (NoDuplicates(m.visited) ==> NoDuplicates(StartedIn(events)))
  }

  lemma SplitLast(s: seq<Id>)
    requires s != []
    ensures s == s[..|s| - 1] + [s[|s| - 1]]
    ensures forall x :: x in s[..|s| - 1] ==> x in s
    ensures NoDuplicates(s) ==> s[|s| - 1] !in s[..|s| - 1]
  {
    var last := |s| - 1;
    if NoDuplicates(s) {
      forall k | 0 <= k < last ensures s[..last][k] != s[last] {
        assert s[k] != s[last];
      }
    }
  }

  lemma CountedStart(plan: Plan, m: Monitor, e: Event, before: seq<Event>)
    requires e.NodeStarted? && !OnStarted(plan, m, e).phase.Rejected? && Counted(plan, m, before)
    ensures Counted(plan, OnStarted(plan, m, e), before + [e])
  {
    hide Inflow, FoldInputs, ConditionHolds;
    assert (before + [e])[..|before|] == before;
    SplitLast(m.visited);
    assert StartedIn(before + [e]) == StartedIn(before) + [e.nodeId];
    assert e.nodeId == m.visited[|m.visited| - 1];
    AppendFresh(StartedIn(before), e.nodeId);
  }

  lemma AppendFresh(s: seq<Id>, x: Id)
    ensures NoDuplicates(s) && x !in s ==> NoDuplicates(s + [x])
  {
  }

  lemma FinishCounts(plan: Plan, m: Monitor, e: Event)
    requires e.NodeFinished? && !OnFinished(plan, m, e).phase.Rejected?
    ensures
      var n := OnFinished(plan, m, e);
      m.phase.Window? && n.visited == m.visited && n.executed == m.executed + 1 && n.phase == Finished(m.phase.node)
  {
    hide Publish;
  }

  lemma CountedFinish(plan: Plan, m: Monitor, e: Event, before: seq<Event>)
    requires e.NodeFinished? && !OnFinished(plan, m, e).phase.Rejected? && Counted(plan, m, before)
    ensures Counted(plan, OnFinished(plan, m, e), before + [e])
  {
    hide OnFinished, FinishedIn, StartedIn, NoDuplicates;
    FinishCounts(plan, m, e);
    FinishOnTheRecord(before, e);
  }

  lemma FinishOnTheRecord(before: seq<Event>, e: Event)
    requires e.NodeFinished?
    ensures FinishedIn(before + [e]) == FinishedIn(before) + 1 && StartedIn(before + [e]) == StartedIn(before)
  {
    assert (before + [e])[..|before|] == before;
  }

  lemma TransferCounts(plan: Plan, m: Monitor, e: Event)
    requires e.DataTransferred? && !OnTransferred(plan, m, e).phase.Rejected?
    ensures
      var n := OnTransferred(plan, m, e);
      m.phase.At? && n.phase.At? && n.phase.node == m.phase.node && n.visited == m.visited && n.executed == m.executed
  {
    hide Inflow, Transfer;
  }

  lemma TransferOnTheRecord(before: seq<Event>, e: Event)
    requires e.DataTransferred?
    ensures FinishedIn(before + [e]) == FinishedIn(before) && StartedIn(before + [e]) == StartedIn(before)
  {
    assert (before + [e])[..|before|] == before;
  }

  lemma CountedTransfer(plan: Plan, m: Monitor, e: Event, before: seq<Event>)
    requires e.DataTransferred? && !OnTransferred(plan, m, e).phase.Rejected? && Counted(plan, m, before)
    ensures Counted(plan, OnTransferred(plan, m, e), before + [e])
  {
    hide OnTransferred, FinishedIn, StartedIn, NoDuplicates;
    TransferCounts(plan, m, e);
    TransferOnTheRecord(before, e);
  }

  lemma CountedQuiet(plan: Plan, m: Monitor, n: Monitor, e: Event, before: seq<Event>)
    requires !e.DataTransferred? && !e.NodeFinished? && !e.NodeStarted?
    requires Quiet(m, n) && Counted(plan, m, before)
    ensures Counted(plan, n, before + [e])
  {
    assert (before + [e])[..|before|] == before;
    assert StartedIn(before + [e]) == StartedIn(before);
    if m.visited != [] {
      SplitLast(m.visited);
    }
  }

  lemma CountedStep(plan: Plan, m: Monitor, e: Event, c: bool, before: seq<Event>)
    requires !OnEvent(plan, m, e, c).phase.Rejected? && Counted(plan, m, before)
    ensures Counted(plan, OnEvent(plan, m, e, c), before + [e])
  {
    hide OnStarted, OnFinished, OnTransferred, OnFailed, OnTerminal, OnActivated, OnPaused, Counted, Quiet;
    match e
    case DataTransferred(_, _, _, _, _, _) => CountedTransfer(plan, m, e, before);
    case NodeFinished(_, _, _) => CountedFinish(plan, m, e, before);
    case NodeStarted(_, _, _, _, _, _, _) => CountedStart(plan, m, e, before);
    case _ =>
      QuietEvent(plan, m, e, c);
      CountedQuiet(plan, m, OnEvent(plan, m, e, c), e, before);
  }

  /** Unpublished steps other than a visit leave counters and visits alone. */
  lemma SteadyStep(plan: Plan, m: Monitor, entry: Entry)
    requires !Observe(plan, m, entry).phase.Rejected? && !entry.step.Emit? && !entry.step.Visit?
    ensures
      var n := Observe(plan, m, entry);
      && n.outputs == m.outputs && n.executed == m.executed && n.visited == m.visited
      && Gathered(n.phase) == Gathered(m.phase)
      && (Busy(n.phase) ==> Busy(m.phase)) && (n.phase.At? ==> m.phase.At?)
      && (Busy(n.phase) || Underway(n.phase) ==>
            (Busy(m.phase) || Underway(m.phase)) && NodeOf(n.phase) == NodeOf(m.phase))
  {
    hide Observe;
    if ClearsTheWay(entry.step) {
      ClearanceOnly(plan, m, entry);
    } else {
      WorkOnly(plan, m, entry);
    }
  }

  lemma CountedVisit(plan: Plan, m: Monitor, id: Id, events: seq<Event>)
    requires !OnVisit(plan, m, id).phase.Rejected? && Counted(plan, m, events)
    ensures Counted(plan, OnVisit(plan, m, id), events)
  {
    var n := OnVisit(plan, m, id);
    assert n.visited[..|m.visited|] == m.visited;
    SplitLast(n.visited);
  }

  lemma CountedOther(plan: Plan, m: Monitor, entry: Entry, events: seq<Event>)
    requires !Observe(plan, m, entry).phase.Rejected? && !entry.step.Emit? && Counted(plan, m, events)
    ensures Counted(plan, Observe(plan, m, entry), events)
  {
    if entry.step.Visit? {
      hide OnEvent, OnVisit, OnRoute, OnPoll, OnCall, OnReturn, OnLeave, OnSkip, OnDeny, Counted;
      CountedVisit(plan, m, entry.step.id, events);
    } else {
      hide Observe;
      SteadyStep(plan, m, entry);
      if m.visited != [] {
        SplitLast(m.visited);
      }
    }
  }

  lemma {:induction false} EverythingIsCounted(plan: Plan, scope: Json.Scope, trace: seq<Entry>)
    requires Accepted(plan, scope, trace)
    ensures Counted(plan, Replay(plan, scope, trace), Emitted(trace))
  {
    hide Observe, OnEvent;
    if trace != [] {
      AcceptedPrefix(plan, scope, trace);
      var init, last := trace[..|trace| - 1], trace[|trace| - 1];
      EverythingIsCounted(plan, scope, init);
      SnocEvents(trace);
      var m := Replay(plan, scope, init);
      hide Counted, Emitted;
      if last.step.Emit? {
        EventObserved(plan, m, last.step.event, last.cancelled);
        CountedStep(plan, m, last.step.event, last.cancelled, Emitted(init));
      } else {
        CountedOther(plan, m, last, Emitted(init));
      }
    }
  }

  /**
   * `nodes_executed` is the number of NodeFinished events and never exceeds the limit; if nodes are
   * visited once, no node starts twice.
   */
  lemma CountsMatchTheLog(plan: Plan, scope: Json.Scope, trace: seq<Entry>)
    requires Accepted(plan, scope, trace)
    ensures
      var m := Replay(plan, scope, trace);
      && m.executed == FinishedIn(Emitted(trace)) <= plan.maxNodes
      && (NoDuplicates(m.visited) ==> NoDuplicates(StartedIn(Emitted(trace))))
      && (forall id :: id in StartedIn(Emitted(trace)) ==> id in m.visited)
  {
    hide Observe;
    EverythingIsCounted(plan, scope, trace);
    var m := Replay(plan, scope, trace);
    if m.visited != [] {
      SplitLast(m.visited);
    }
  }
}
