// What a node must get past before it runs, read off the trace: permission before a visit, its
// breakpoint and the policy's consent before it starts, its delays and backoffs between its calls.
module GateLaws {
  import opened Workflow
  import opened Digraph
  import opened Events
  import opened RunTrace
  import opened RunSteps
  import opened RunLaws
  import CancelLaws
  import Json
  import Retry
  import RunControl

  /**
   * What a trace says was settled since the last visit: permission, what happened at a breakpoint and
   * the capability allowed last; the waits since the last call, start or finish; and the node that
   * finished last and has not been routed.
   */
  datatype Ledger = Ledger(
    granted: bool, marks: seq<Step>, consent: Option<string>, rests: seq<nat>, finished: Option<Id>)

  const BLANK := Ledger(false, [], None, [], None)

  function LedgerStep(l: Ledger, step: Step): Ledger {
    match step
    case Grant(seen) => l.(granted := l.granted || RunControl.Check(seen).0 == RunControl.Granted)
    case Visit(_) => BLANK
    case Look(_) => l.(marks := l.marks + [step])
    case Hold => l.(marks := l.marks + [step])
    case Readmit(_) => l.(marks := l.marks + [step])
    case Allow(capability) => l.(consent := Some(capability))
    case Sleep(ms) => l.(rests := l.rests + [ms])
    case Call(_) => l.(rests := [])
    case Route(_) => l.(finished := None)
    case Emit(e) =>
      if e.RunPaused? then l.(marks := l.marks + [step])
      else if e.NodeStarted? then l.(rests := [])
      else if e.NodeFinished? then l.(rests := [], finished := Some(e.nodeId))
      else l
    case _ => l
  }

  function LedgerOf(trace: seq<Entry>): Ledger {
    if trace == [] then BLANK else LedgerStep(LedgerOf(trace[..|trace| - 1]), trace[|trace| - 1].step)
  }

  /**
   * A breakpoint is honoured when the run was found paused, whose gate has already held the node, or
   * when the gate was shut, that was reported, and the gate let the engine through again.
   */
  predicate Honoured(marks: seq<Step>) {
    || marks == [Look(true)]
    || (&& |marks| == 4 && marks[..3] == [Look(false), Hold, Emit(RunPaused)]
        && marks[3].Readmit? && RunControl.Check(marks[3].seen).0 == RunControl.Granted)
  }

  predicate Marked(stopping: Stopping, marks: seq<Step>) {
    match stopping
    case Unlooked => marks == []
    case Unpaused => marks == [Look(false)]
    case Shut => marks == [Look(false), Hold]
    case Reported => marks == [Look(false), Hold, Emit(RunPaused)]
    case Passed => Honoured(marks)
  }

  predicate Rested(rested: Option<nat>, rests: seq<nat>) {
    rests == if rested.Some? then [rested.value] else []
  }

  /** The node in hand is the one declared under its id. */
  predicate Declared(plan: Plan, phase: Phase) {
    Busy(phase) || Underway(phase) ==> Lookup(plan.doc.nodes, NodeOf(phase).id) == Some(NodeOf(phase))
  }

  /** The acceptor remembers what the ledger says. */
  ghost predicate InBooks(plan: Plan, m: Monitor, l: Ledger) {
    && Declared(plan, m.phase)
    && (m.clear.granted ==> l.granted)
    && (m.phase.At? && m.clear.allowed ==> l.consent == Some(m.phase.node.nodeType))
    && (m.phase.At? ==> Marked(m.clear.stopping, l.marks))
    && (m.phase.Window? || m.phase.Finished? ==> Rested(m.clear.rested, l.rests))
    && (m.phase.Window? && m.phase.calling ==> m.clear.rested.None?)
    && (m.phase.Finished? ==> l.finished == Some(m.phase.node.id))
    && (l.finished.Some? ==> m.phase.Finished? || m.phase.Ended?)
  }

  // ------------------------------------------------------------ one step

  /** When a clearing step is in place, and what it settles. */
  predicate Clearing(m: Monitor, step: Step, c: Clearance) {
    match step
    case Poll => c == m.clear
    case Grant(seen) => RunControl.Check(seen).0 == RunControl.Granted && c == m.clear.(granted := true)
    case Look(paused) =>
      m.phase.At? && m.clear.stopping == Unlooked && c == m.clear.(stopping := if paused then Passed else Unpaused)
    case Hold => m.phase.At? && m.clear.stopping == Unpaused && c == m.clear.(stopping := Shut)
    case Readmit(seen) =>
      && m.phase.At? && m.clear.stopping == Reported && RunControl.Check(seen).0 == RunControl.Granted
      && c == m.clear.(stopping := Passed)
    case Allow(capability) => m.phase.At? && capability == m.phase.node.nodeType && c == m.clear.(allowed := true)
    case Sleep(ms) =>
      && !m.phase.At? && (m.phase.Window? ==> !m.phase.calling)
      && m.clear.rested.None? && c == m.clear.(rested := Some(ms))
    case _ => false
  }

  lemma ClearingSettles(plan: Plan, m: Monitor, entry: Entry)
    requires ClearsTheWay(entry.step) && !Observe(plan, m, entry).phase.Rejected?
    ensures
      var n := Observe(plan, m, entry);
      n == m.(polled := n.polled, clear := n.clear) && Clearing(m, entry.step, n.clear)
  {
    hide OnEvent, OnVisit, OnRoute, OnCall, OnReturn, OnLeave, OnSkip, OnDeny, ConditionHolds, PastBreakpoint;
  }

  lemma BooksClearing(plan: Plan, m: Monitor, n: Monitor, step: Step, l: Ledger)
    requires InBooks(plan, m, l) && n == m.(polled := n.polled, clear := n.clear) && Clearing(m, step, n.clear)
    ensures InBooks(plan, n, LedgerStep(l, step))
  {
    hide Declared, Lookup;
  }

  /** A working step keeps what was settled, except that calls and returns start a new wait. */
  lemma WorkSettles(plan: Plan, m: Monitor, entry: Entry)
    requires Works(entry.step) && !Observe(plan, m, entry).phase.Rejected?
    ensures
      var n := Observe(plan, m, entry);
      n.clear == if entry.step.Call? || entry.step.Return? then m.clear.(rested := None) else m.clear
    ensures entry.step.Call? ==> m.phase.Window? && m.clear.rested == Some(DelayDue(m.phase))
    ensures entry.step.Route? && m.phase.Finished? ==> m.clear.rested == Some(m.phase.node.delayAfterMs)
  {
    hide OnEvent, OnVisit, ConditionHolds, PastBreakpoint, MayCall, DelayDue, TakenEdges, EdgesFrom, HasFailureRoute,
         OnPoll, OnGrant, OnLook, OnHold, OnReadmit, OnAllow, OnSleep;
  }

  lemma BooksWork(plan: Plan, m: Monitor, n: Monitor, step: Step, l: Ledger)
    requires InBooks(plan, m, l) && Works(step) && Moves(step, m.phase, n.phase)
    requires n.clear == if step.Call? || step.Return? then m.clear.(rested := None) else m.clear
    requires step.Call? ==> m.clear.rested.Some?
    ensures InBooks(plan, n, LedgerStep(l, step))
  {
    hide MayCall, Lookup, Marked;
  }

  lemma BooksVisit(plan: Plan, m: Monitor, node: Node, id: Id, l: Ledger)
    requires InBooks(plan, m, l) && Lookup(plan.doc.nodes, id) == Some(node)
    ensures InBooks(plan, Visited(m, node, id), LedgerStep(l, Visit(id)))
  {
  }

  /** Nothing is settled by the event, and no wait begins. */
  predicate Idle(m: Monitor, n: Monitor) {
    && n.clear == m.clear
    && (n.phase.At? ==> m.phase.At?) && (n.phase.Window? || n.phase.Finished? ==> n.phase == m.phase)
    && (m.phase.Finished? || m.phase.Ended? ==> n.phase.Finished? || n.phase.Ended?)
    && (Busy(n.phase) || Underway(n.phase) ==>
          (Busy(m.phase) || Underway(m.phase)) && NodeOf(n.phase) == NodeOf(m.phase))
  }

  lemma IdleFailure(plan: Plan, m: Monitor, e: Event)
    requires e.NodeFailed? && !OnFailed(plan, m, e).phase.Rejected?
    ensures Idle(m, OnFailed(plan, m, e))
  {
    hide ConditionError, LastError, FailureEvent, Retry.KeepsRetrying;
    match m.phase
    case At(_, _) =>
    case Denied(_, _) =>
    case Window(_, _, _, _) =>
    case _ =>
  }

  lemma IdleTerminal(plan: Plan, m: Monitor, e: Event, c: bool)
    requires IsTerminal(e) && !OnTerminal(plan, m, e, c).phase.Rejected?
    ensures Idle(m, OnTerminal(plan, m, e, c))
  {
    hide MayCancel, MayFail;
  }

  lemma IdleTransfer(plan: Plan, m: Monitor, e: Event)
    requires e.DataTransferred? && !OnTransferred(plan, m, e).phase.Rejected?
    ensures Idle(m, OnTransferred(plan, m, e))
  {
    hide Inflow, Transfer;
  }

  lemma IdleEvent(plan: Plan, m: Monitor, e: Event, c: bool)
    requires !e.NodeFinished? && !e.NodeStarted? && !e.RunPaused? && !OnEvent(plan, m, e, c).phase.Rejected?
    ensures Idle(m, OnEvent(plan, m, e, c))
  {
    hide OnStarted, OnFinished, OnTransferred, OnFailed, OnTerminal, OnPaused;
    match e
    case NodeFailed(_, _, _, _, _) => IdleFailure(plan, m, e);
    case DataTransferred(_, _, _, _, _, _) => IdleTransfer(plan, m, e);
    case RunCancelled(_) => IdleTerminal(plan, m, e, c);
    case RunCompleted(_) => IdleTerminal(plan, m, e, c);
    case RunFailed(_, _) => IdleTerminal(plan, m, e, c);
    case _ =>
  }

  lemma BooksIdle(plan: Plan, m: Monitor, n: Monitor, e: Event, l: Ledger)
    requires InBooks(plan, m, l) && Idle(m, n) && !e.NodeFinished? && !e.NodeStarted? && !e.RunPaused?
    ensures InBooks(plan, n, LedgerStep(l, Emit(e)))
  {
    hide Lookup, Marked;
  }

  lemma BooksStart(plan: Plan, m: Monitor, e: Event, l: Ledger)
    requires InBooks(plan, m, l) && e.NodeStarted? && !OnStarted(plan, m, e).phase.Rejected?
    ensures InBooks(plan, OnStarted(plan, m, e), LedgerStep(l, Emit(e)))
  {
    hide Lookup, Marked, MayStart;
  }

  lemma BooksFinish(plan: Plan, m: Monitor, e: Event, l: Ledger)
    requires InBooks(plan, m, l) && e.NodeFinished? && !OnFinished(plan, m, e).phase.Rejected?
    ensures InBooks(plan, OnFinished(plan, m, e), LedgerStep(l, Emit(e)))
  {
    hide Lookup, Marked, Publish;
  }

  lemma PauseSettles(plan: Plan, m: Monitor)
    requires !OnPaused(plan, m).phase.Rejected?
    ensures
      || (m.phase == Ready(true) && OnPaused(plan, m) == m.(phase := Ready(false)))
      || (m.phase.At? && m.clear.stopping == Shut && OnPaused(plan, m) == m.(clear := m.clear.(stopping := Reported)))
  {
  }

  lemma BooksPause(plan: Plan, m: Monitor, l: Ledger)
    requires InBooks(plan, m, l) && !OnPaused(plan, m).phase.Rejected?
    ensures InBooks(plan, OnPaused(plan, m), LedgerStep(l, Emit(RunPaused)))
  {
    hide OnPaused, Declared;
    PauseSettles(plan, m);
    if m.phase.Ready? {
      IdleDeclared(plan, m.phase, Ready(false));
    }
  }

  lemma IdleDeclared(plan: Plan, a: Phase, b: Phase)
    requires Declared(plan, a) && !Busy(b) && !Underway(b)
    ensures Declared(plan, b)
  {
  }

  lemma BooksEvent(plan: Plan, m: Monitor, e: Event, c: bool, l: Ledger)
    requires InBooks(plan, m, l) && !OnEvent(plan, m, e, c).phase.Rejected?
    ensures InBooks(plan, OnEvent(plan, m, e, c), LedgerStep(l, Emit(e)))
  {
    hide InBooks, LedgerStep, Idle, OnStarted, OnFinished, OnTransferred, OnFailed, OnTerminal, OnPaused, OnActivated;
    match e
    case NodeStarted(_, _, _, _, _, _, _) => BooksStart(plan, m, e, l);
    case NodeFinished(_, _, _) => BooksFinish(plan, m, e, l);
    case RunPaused => BooksPause(plan, m, l);
    case _ =>
      IdleEvent(plan, m, e, c);
      BooksIdle(plan, m, OnEvent(plan, m, e, c), e, l);
  }

  lemma BooksStep(plan: Plan, m: Monitor, entry: Entry, l: Ledger)
    requires InBooks(plan, m, l) && !Observe(plan, m, entry).phase.Rejected?
    ensures InBooks(plan, Observe(plan, m, entry), LedgerStep(l, entry.step))
  {
    hide Observe, OnEvent, InBooks, LedgerStep, Clearing, Moves;
    var n := Observe(plan, m, entry);
    if ClearsTheWay(entry.step) {
      ClearingSettles(plan, m, entry);
      BooksClearing(plan, m, n, entry.step, l);
    } else if Works(entry.step) {
      WorkOnly(plan, m, entry);
      WorkSettles(plan, m, entry);
      BooksWork(plan, m, n, entry.step, l);
    } else if entry.step.Visit? {
      VisitOnly(plan, m, entry);
      BooksVisit(plan, m, n.phase.node, entry.step.id, l);
    } else {
      EventObserved(plan, m, entry.step.event, entry.cancelled);
      BooksEvent(plan, m, entry.step.event, entry.cancelled, l);
    }
  }

  lemma BlankBooks(plan: Plan, scope: Json.Scope)
    ensures InBooks(plan, Begin(plan, scope), BLANK)
  {
  }

  lemma {:induction false} BooksAreKept(plan: Plan, scope: Json.Scope, trace: seq<Entry>)
    requires Accepted(plan, scope, trace)
    ensures InBooks(plan, Replay(plan, scope, trace), LedgerOf(trace))
  {
    hide Observe, InBooks, LedgerStep;
    if trace == [] {
      BlankBooks(plan, scope);
    } else {
      AcceptedPrefix(plan, scope, trace);
      var init := trace[..|trace| - 1];
      BooksAreKept(plan, scope, init);
      BooksStep(plan, Replay(plan, scope, init), trace[|trace| - 1], LedgerOf(init));
    }
  }

  /** The acceptor before step `i`, the books at that point, and that the step is accepted there. */
  lemma BooksBefore(plan: Plan, scope: Json.Scope, trace: seq<Entry>, i: nat) returns (m: Monitor)
    requires Accepted(plan, scope, trace) && i < |trace|
    ensures m == Replay(plan, scope, trace[..i]) && InBooks(plan, m, LedgerOf(trace[..i]))
    ensures !Observe(plan, m, trace[i]).phase.Rejected?
  {
    hide Observe, InBooks, LedgerOf;
    AcceptedUpTo(plan, scope, trace, i);
    AcceptedUpTo(plan, scope, trace, i + 1);
    BooksAreKept(plan, scope, trace[..i]);
    m := Replay(plan, scope, trace[..i]);
    assert trace[..i + 1][..i] == trace[..i];
  }

  // ------------------------------------------------------------- the laws

  /** A node is visited only after the gate, seen open since the last visit, let the engine through. */
  lemma VisitsArePermitted(plan: Plan, scope: Json.Scope, trace: seq<Entry>, i: nat)
    requires Accepted(plan, scope, trace) && i < |trace| && trace[i].step.Visit?
    ensures LedgerOf(trace[..i]).granted
  {
    hide OnEvent, LedgerOf;
    var m := BooksBefore(plan, scope, trace, i);
  }

  /** What must be settled when a node starts. */
  ghost predicate ClearedToStart(plan: Plan, l: Ledger, scope: Json.Scope, id: Id, kind: string) {
    var found := Lookup(plan.doc.nodes, id);
    && found.Some? && found.value.enabled && found.value.nodeType == kind
    && ConditionHolds(plan, found.value, scope)
    && l.consent == Some(kind)
    && (found.value.breakpoint ==> Honoured(l.marks))
  }

  lemma StartIsCleared(plan: Plan, m: Monitor, e: Event, l: Ledger)
    requires InBooks(plan, m, l) && e.NodeStarted? && !OnStarted(plan, m, e).phase.Rejected?
    ensures ClearedToStart(plan, l, m.scope, e.nodeId, e.nodeType)
  {
    hide ConditionHolds, Inflow, FoldInputs, Lookup;
  }

  /**
   * Since its visit every node that starts was allowed by policy, under its own type, and its
   * breakpoint was honoured; it is enabled and its condition held.
   */
  lemma StartsAreCleared(plan: Plan, scope: Json.Scope, trace: seq<Entry>, i: nat)
    requires Accepted(plan, scope, trace) && i < |trace| && trace[i].step.Emit? && trace[i].step.event.NodeStarted?
    ensures
      var e := trace[i].step.event;
      ClearedToStart(plan, LedgerOf(trace[..i]), Replay(plan, scope, trace[..i]).scope, e.nodeId, e.nodeType)
  {
    hide OnStarted, Observe, LedgerOf, InBooks, ClearedToStart;
    var m := BooksBefore(plan, scope, trace, i);
    var e := trace[i].step.event;
    EventObserved(plan, m, e, trace[i].cancelled);
    StartIsCleared(plan, m, e, LedgerOf(trace[..i]));
  }

  /** What must be waited before attempt `k` of a node: its delay, then the backoff of the attempts so far. */
  function WaitBefore(node: Node, k: nat): nat {
    if k <= 1 then node.delayBeforeMs else Retry.RetryDelayMs(node, Retry.Attempt(k - 1))
  }

  /**
   * Between a start and the first call, and between one call and the next, there is exactly one wait,
   * of exactly the length the node asks for.
   */
  lemma CallsAreSpaced(plan: Plan, scope: Json.Scope, trace: seq<Entry>, i: nat)
    requires Accepted(plan, scope, trace) && i < |trace| && trace[i].step.Call?
    ensures
      var id := CancelLaws.TallyOf(trace[..i]).node;
      && id.Some? && Lookup(plan.doc.nodes, id.value).Some?
      && LedgerOf(trace[..i]).rests == [WaitBefore(Lookup(plan.doc.nodes, id.value).value, trace[i].step.attempt)]
  {
    hide Observe, LedgerOf, Lookup, Retry.RetryDelayMs, CancelLaws.TallyOf;
    var m := BooksBefore(plan, scope, trace, i);
    AcceptedUpTo(plan, scope, trace, i);
    CancelLaws.RunIsTallied(plan, scope, trace[..i]);
    WorkSettles(plan, m, trace[i]);
    CancelLaws.CallStep(plan, m, trace[i]);
  }

  /** The edges of a node that finished are followed after exactly one wait, of its own length. */
  lemma RoutesWait(plan: Plan, scope: Json.Scope, trace: seq<Entry>, i: nat)
    requires Accepted(plan, scope, trace) && i < |trace| && trace[i].step.Route? && LedgerOf(trace[..i]).finished.Some?
    ensures
      var found := Lookup(plan.doc.nodes, LedgerOf(trace[..i]).finished.value);
      && trace[i].step.ok && found.Some? && LedgerOf(trace[..i]).rests == [found.value.delayAfterMs]
  {
    hide Observe, LedgerOf, Lookup;
    var m := BooksBefore(plan, scope, trace, i);
    WorkSettles(plan, m, trace[i]);
    WorkOnly(plan, m, trace[i]);
    RoutingAfterFinish(plan, m, trace[i]);
  }

  lemma RoutingAfterFinish(plan: Plan, m: Monitor, entry: Entry)
    requires entry.step.Route? && m.phase.Finished? && !Observe(plan, m, entry).phase.Rejected?
    ensures entry.step.ok
  {
    hide TakenEdges, EdgesFrom;
  }

  // ------------------------------------------------------------- refusals

  const DENIAL := "E_PERMISSION_DENIED"

  /** The run is on its way to ending, or has ended, with the report of a refusal. */
  predicate Refused(phase: Phase) {
    match phase
    case Denied(_, error) => error.PermissionDenied?
    case Doomed(code, _) => code == DENIAL
    case Ended => true
    case _ => false
  }

  /** All that may still happen after a refusal: polls, the report of the node and that of the run. */
  predicate WindsUp(step: Step) {
    match step
    case Poll => true
    case Emit(e) => (e.NodeFailed? || e.RunFailed?) && e.code == DENIAL
    case _ => false
  }

  lemma RefusedReports(plan: Plan, m: Monitor, e: Event, c: bool)
    requires Refused(m.phase) && !OnEvent(plan, m, e, c).phase.Rejected?
    ensures WindsUp(Emit(e)) && Refused(OnEvent(plan, m, e, c).phase)
  {
    match m.phase
    case Denied(_, _) =>
    case Doomed(_, _) =>
    case Ended =>
  }

  lemma RefusalLasts(plan: Plan, m: Monitor, entry: Entry)
    requires Refused(m.phase) && !Observe(plan, m, entry).phase.Rejected?
    ensures WindsUp(entry.step) && Refused(Observe(plan, m, entry).phase)
  {
    if entry.step.Emit? {
      hide Observe, OnEvent;
      EventObserved(plan, m, entry.step.event, entry.cancelled);
      RefusedReports(plan, m, entry.step.event, entry.cancelled);
    } else {
      hide OnEvent, ConditionHolds, PastBreakpoint;
    }
  }

  lemma RefusalBegins(plan: Plan, m: Monitor, entry: Entry)
    requires entry.step.Deny? && !Observe(plan, m, entry).phase.Rejected?
    ensures Refused(Observe(plan, m, entry).phase)
  {
    hide ConditionHolds, PastBreakpoint;
  }

  lemma {:induction false} RefusedSince(plan: Plan, scope: Json.Scope, trace: seq<Entry>, i: nat, j: nat)
    requires Accepted(plan, scope, trace) && i < j <= |trace| && trace[i].step.Deny?
    ensures Refused(Replay(plan, scope, trace[..j]).phase)
    ensures forall k :: i < k < j ==> WindsUp(trace[k].step)
    decreases j
  {
    hide Observe, Refused, WindsUp;
    AcceptedUpTo(plan, scope, trace, j);
    var m := Replay(plan, scope, trace[..j - 1]);
    assert trace[..j][..j - 1] == trace[..j - 1];
    if j == i + 1 {
      RefusalBegins(plan, m, trace[i]);
    } else {
      RefusedSince(plan, scope, trace, i, j - 1);
      RefusalLasts(plan, m, trace[j - 1]);
    }
  }

  /**
   * After policy or an approver has refused a node, nothing is called, started, routed or visited any
   * more: the refusal is reported for the node and for the run.
   */
  lemma RefusalIsFinal(plan: Plan, scope: Json.Scope, trace: seq<Entry>, i: nat, j: nat)
    requires Accepted(plan, scope, trace) && i < j < |trace| && trace[i].step.Deny?
    ensures WindsUp(trace[j].step)
  {
    hide Accepted, Refused, WindsUp;
    RefusedSince(plan, scope, trace, i, |trace|);
  }
}
