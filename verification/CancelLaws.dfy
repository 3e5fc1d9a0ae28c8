// Cancellation and retries, read off the trace of a run: how much can still happen once the flag is up,
// and how often one node may be attempted.
module CancelLaws {
  import opened Digraph
  import opened Workflow
  import opened Events
  import opened RunTrace
  import opened RunSteps
  import opened RunLaws
  import opened Words
  import Json
  import Retry

  // ------------------------------------------------- bounded reaction to cancel

  predicate IsLateCall(e: Entry) {
    e.cancelled && e.step.Call?
  }

  predicate IsLateFinish(e: Entry) {
    e.cancelled && e.step.Emit? && e.step.event.NodeFinished?
  }

  /** Executor calls that start while the run is already cancelled. */
  function LateCalls(trace: seq<Entry>): nat {
    if trace == [] then 0
    else LateCalls(trace[..|trace| - 1]) + (if IsLateCall(trace[|trace| - 1]) then 1 else 0)
  }

  function LateFinishes(trace: seq<Entry>): nat {
    if trace == [] then 0
    else LateFinishes(trace[..|trace| - 1]) + (if IsLateFinish(trace[|trace| - 1]) then 1 else 0)
  }

  /** A successful poll not yet used up, or a call that such a poll allowed, rules out earlier late steps. */
  ghost predicate Prompt(m: Monitor, calls: nat, finishes: nat) {
    && calls <= 1 && finishes <= 1
    && (m.polled ==> calls == 0 && finishes == 0)
    && (m.phase.Window? && (m.phase.calling || m.phase.last.Some?) ==> finishes == 0)
  }

  lemma {:induction false} NothingLateBefore(trace: seq<Entry>)
    requires forall i :: 0 <= i < |trace| ==> !trace[i].cancelled
    ensures LateCalls(trace) == 0 && LateFinishes(trace) == 0
  {
    if trace != [] {
      NothingLateBefore(trace[..|trace| - 1]);
    }
  }

  lemma PromptUnpublished(plan: Plan, m: Monitor, entry: Entry, calls: nat, finishes: nat)
    requires Prompt(m, calls, finishes) && !Observe(plan, m, entry).phase.Rejected? && !entry.step.Emit?
    requires entry.step.Poll? ==> calls == 0 && finishes == 0
    ensures Prompt(Observe(plan, m, entry), calls + (if IsLateCall(entry) then 1 else 0), finishes)
  {
    hide Observe;
    if ClearsTheWay(entry.step) {
      ClearanceOnly(plan, m, entry);
    } else if Works(entry.step) {
      WorkOnly(plan, m, entry);
    } else {
      VisitOnly(plan, m, entry);
    }
  }

  lemma PromptFinish(plan: Plan, m: Monitor, e: Event, c: bool, calls: nat, finishes: nat)
    requires Prompt(m, calls, finishes) && e.NodeFinished? && !OnFinished(plan, m, e).phase.Rejected?
    ensures Prompt(OnFinished(plan, m, e), calls, finishes + (if c then 1 else 0))
  {
    hide Publish;
  }

  lemma PromptStart(plan: Plan, m: Monitor, e: Event, calls: nat, finishes: nat)
    requires Prompt(m, calls, finishes) && e.NodeStarted? && !OnStarted(plan, m, e).phase.Rejected?
    ensures Prompt(OnStarted(plan, m, e), calls, finishes)
  {
    hide MayStart;
  }

  /** Neither a poll nor a window is opened by the event. */
  ghost predicate Inert(m: Monitor, n: Monitor) {
    (n.polled ==> m.polled) && (n.phase.Window? ==> m.phase.Window? && n.phase == m.phase)
  }

  lemma InertTerminal(plan: Plan, m: Monitor, e: Event, c: bool)
    requires IsTerminal(e) && !OnTerminal(plan, m, e, c).phase.Rejected?
    ensures Inert(m, OnTerminal(plan, m, e, c))
  {
    hide MayCancel, MayFail;
  }

  lemma InertFailure(plan: Plan, m: Monitor, e: Event)
    requires e.NodeFailed? && !OnFailed(plan, m, e).phase.Rejected?
    ensures Inert(m, OnFailed(plan, m, e))
  {
    hide ConditionError, LastError, FailureEvent;
  }

  lemma InertTransfer(plan: Plan, m: Monitor, e: Event)
    requires e.DataTransferred? && !OnTransferred(plan, m, e).phase.Rejected?
    ensures Inert(m, OnTransferred(plan, m, e))
  {
    hide Inflow, Transfer;
  }

  lemma InertPause(plan: Plan, m: Monitor)
    requires !OnPaused(plan, m).phase.Rejected?
    ensures Inert(m, OnPaused(plan, m))
  {
  }

  lemma InertOther(plan: Plan, m: Monitor, e: Event, c: bool)
    requires !OnEvent(plan, m, e, c).phase.Rejected? && !e.NodeFinished? && !e.NodeStarted?
    ensures Inert(m, OnEvent(plan, m, e, c))
  {
    hide OnTerminal, OnFailed, OnFinished, OnStarted, OnTransferred, OnPaused;
    match e
    case DataTransferred(_, _, _, _, _, _) => InertTransfer(plan, m, e);
    case RunPaused => InertPause(plan, m);
    case NodeFailed(_, _, _, _, _) => InertFailure(plan, m, e);
    case RunCancelled(_) => InertTerminal(plan, m, e, c);
    case RunCompleted(_) => InertTerminal(plan, m, e, c);
    case RunFailed(_, _) => InertTerminal(plan, m, e, c);
    case _ =>
  }

  lemma PromptEvent(plan: Plan, m: Monitor, e: Event, c: bool, calls: nat, finishes: nat)
    requires Prompt(m, calls, finishes) && !OnEvent(plan, m, e, c).phase.Rejected?
    ensures Prompt(OnEvent(plan, m, e, c), calls, finishes + (if c && e.NodeFinished? then 1 else 0))
  {
    hide OnTerminal, OnFailed, OnFinished, OnStarted, OnActivated, OnTransferred, OnPaused;
    if e.NodeFinished? {
      PromptFinish(plan, m, e, c, calls, finishes);
    } else if e.NodeStarted? {
      PromptStart(plan, m, e, calls, finishes);
    } else {
      hide OnEvent;
      InertOther(plan, m, e, c);
    }
  }

  lemma PromptFromTheStart(plan: Plan, scope: Json.Scope)
    ensures Prompt(Begin(plan, scope), 0, 0)
  {
  }

  /** A poll is accepted only with the flag down, and the flag never comes down. */
  lemma PollSeesNothingLate(plan: Plan, m: Monitor, trace: seq<Entry>)
    requires StampsRise(trace) && trace != [] && trace[|trace| - 1].step.Poll?
    requires !Observe(plan, m, trace[|trace| - 1]).phase.Rejected?
    ensures LateCalls(trace[..|trace| - 1]) == 0 && LateFinishes(trace[..|trace| - 1]) == 0
  {
    NothingLateBefore(trace[..|trace| - 1]);
  }

  lemma {:induction false} RunIsPrompt(plan: Plan, scope: Json.Scope, trace: seq<Entry>)
    requires Accepted(plan, scope, trace)
    ensures Prompt(Replay(plan, scope, trace), LateCalls(trace), LateFinishes(trace))
  {
    hide Observe, OnEvent, Prompt;
    if trace == [] {
      PromptFromTheStart(plan, scope);
    } else {
      AcceptedPrefix(plan, scope, trace);
      var init, last := trace[..|trace| - 1], trace[|trace| - 1];
      RunIsPrompt(plan, scope, init);
      var m := Replay(plan, scope, init);
      if last.step.Emit? {
        EventObserved(plan, m, last.step.event, last.cancelled);
        PromptEvent(plan, m, last.step.event, last.cancelled, LateCalls(init), LateFinishes(init));
      } else {
        if last.step.Poll? {
          PollSeesNothingLate(plan, m, trace);
        }
        PromptUnpublished(plan, m, last, LateCalls(init), LateFinishes(init));
      }
    }
  }

  /**
   * However the cancellation falls between the steps of a run, at most one executor call starts and
   * at most one node finishes after it.
   */
  lemma CancelTakesHoldQuickly(plan: Plan, scope: Json.Scope, trace: seq<Entry>)
    requires Accepted(plan, scope, trace)
    ensures LateCalls(trace) <= 1 && LateFinishes(trace) <= 1
  {
    hide Observe;
    RunIsPrompt(plan, scope, trace);
  }

  // ------------------------------------------------------- attempts in a window

  /** What the trace says of the window that is open at its end: its node, its calls, the last result. */
  datatype Tally = Tally(node: Option<Id>, calls: nat, last: Option<Attempted>)

  function TallyStep(t: Tally, step: Step): Tally {
    match step
    case Call(_) => t.(calls := t.calls + 1)
    case Return(result, _) => t.(last := Some(result))
    case Emit(e) =>
      if e.NodeStarted? then Tally(Some(e.nodeId), 0, None)
      else if IsChatter(e) then t
      else Tally(None, 0, None)
    case _ => t
  }

  function TallyOf(trace: seq<Entry>): Tally {
    if trace == [] then Tally(None, 0, None)
    else TallyStep(TallyOf(trace[..|trace| - 1]), trace[|trace| - 1].step)
  }

  ghost predicate Tallied(plan: Plan, m: Monitor, t: Tally) {
    && (m.phase.Window? ==>
          && t == Tally(Some(m.phase.node.id), m.phase.attempts, m.phase.last)
          && m.phase.node in plan.doc.nodes
          && WithinBudget(m.phase.node, m.phase.attempts))
    && (m.phase.At? ==> m.phase.node in plan.doc.nodes)
  }

  /** With a budget below the largest 32-bit number, a node is attempted at most once more than it. */
  predicate WithinBudget(node: Node, calls: nat) {
    node.retry < MAX_U32 ==> calls <= node.retry + 1
  }

  lemma TalliedUnpublished(plan: Plan, m: Monitor, entry: Entry, t: Tally)
    requires Tallied(plan, m, t) && !Observe(plan, m, entry).phase.Rejected? && !entry.step.Emit?
    ensures Tallied(plan, Observe(plan, m, entry), TallyStep(t, entry.step))
  {
    hide Observe, MayCall;
    if ClearsTheWay(entry.step) {
      ClearanceOnly(plan, m, entry);
    } else if Works(entry.step) {
      WorkOnly(plan, m, entry);
      if entry.step.Call? {
        CallKeepsBudget(m.phase, entry.step.attempt);
      }
    } else {
      VisitOnly(plan, m, entry);
    }
  }

  lemma CallKeepsBudget(w: Phase, attempt: nat)
    requires w.Window? && MayCall(w, attempt)
    ensures attempt == w.attempts + 1 && WithinBudget(w.node, attempt)
  {
  }

  lemma TalliedEvent(plan: Plan, m: Monitor, e: Event, c: bool, t: Tally)
    requires Tallied(plan, m, t) && !OnEvent(plan, m, e, c).phase.Rejected?
    ensures Tallied(plan, OnEvent(plan, m, e, c), TallyStep(t, Emit(e)))
  {
    if e.NodeFinished? {
      hide OnTerminal, OnFailed, OnStarted, OnActivated, OnTransferred, OnPaused, Publish;
    } else if e.NodeStarted? {
      hide OnTerminal, OnFailed, OnFinished, OnActivated, OnTransferred, OnPaused, MayStart;
      assert e.nodeId == m.phase.node.id by {
        StartNamesTheNode(plan, m, e);
      }
    } else {
      hide OnEvent;
      InertOther(plan, m, e, c);
      WindowsSeeChatterOnly(plan, m, e, c);
      AtStays(plan, m, e, c);
    }
  }

  lemma StartNamesTheNode(plan: Plan, m: Monitor, e: Event)
    requires e.NodeStarted? && !OnStarted(plan, m, e).phase.Rejected?
    ensures m.phase.At? && e.nodeId == m.phase.node.id
  {
  }

  /** Inside a window every event that leaves it open is chatter. */
  lemma WindowsSeeChatterOnly(plan: Plan, m: Monitor, e: Event, c: bool)
    requires !OnEvent(plan, m, e, c).phase.Rejected? && !e.NodeStarted?
    ensures OnEvent(plan, m, e, c).phase.Window? ==> IsChatter(e)
  {
    hide OnEvent;
    ScanFollowsEvent(plan, m, e, c);
  }

  lemma FailureLeaves(plan: Plan, m: Monitor, e: Event)
    requires e.NodeFailed? && !OnFailed(plan, m, e).phase.Rejected?
    ensures OnFailed(plan, m, e).phase.Doomed? || OnFailed(plan, m, e).phase.Broken?
  {
    hide ConditionError, LastError, FailureEvent, Retry.KeepsRetrying;
    match m.phase
    case At(_, _) =>
    case Denied(_, _) =>
    case Window(_, _, _, _) =>
    case _ =>
  }

  lemma TerminalEnds(plan: Plan, m: Monitor, e: Event, c: bool)
    requires IsTerminal(e) && !OnTerminal(plan, m, e, c).phase.Rejected?
    ensures OnTerminal(plan, m, e, c).phase.Ended?
  {
    hide MayCancel, MayFail;
  }

  lemma AtStays(plan: Plan, m: Monitor, e: Event, c: bool)
    requires !OnEvent(plan, m, e, c).phase.Rejected? && !e.NodeStarted?
    ensures OnEvent(plan, m, e, c).phase.At? ==> m.phase.At? && OnEvent(plan, m, e, c).phase.node == m.phase.node
  {
    hide OnTerminal, OnFailed, OnFinished, OnStarted, OnTransferred, OnPaused;
    match e
    case NodeFinished(_, _, _) => FinishShape(plan, m, e);
    case DataTransferred(_, _, _, _, _, _) => TransferShape(plan, m, e);
    case RunPaused => PauseShape(plan, m);
    case NodeFailed(_, _, _, _, _) => FailureLeaves(plan, m, e);
    case RunCancelled(_) => TerminalEnds(plan, m, e, c);
    case RunCompleted(_) => TerminalEnds(plan, m, e, c);
    case RunFailed(_, _) => TerminalEnds(plan, m, e, c);
    case _ =>
  }

  lemma {:induction false} RunIsTallied(plan: Plan, scope: Json.Scope, trace: seq<Entry>)
    requires Accepted(plan, scope, trace)
    ensures Tallied(plan, Replay(plan, scope, trace), TallyOf(trace))
  {
    hide Observe, OnEvent;
    if trace != [] {
      AcceptedPrefix(plan, scope, trace);
      var init, last := trace[..|trace| - 1], trace[|trace| - 1];
      RunIsTallied(plan, scope, init);
      var m := Replay(plan, scope, init);
      hide Tallied, TallyStep;
      if last.step.Emit? {
        EventObserved(plan, m, last.step.event, last.cancelled);
        TalliedEvent(plan, m, last.step.event, last.cancelled, TallyOf(init));
      } else {
        TalliedUnpublished(plan, m, last, TallyOf(init));
      }
    }
  }

  /** A node of the document whose window is open, its budget not exceeded by `calls` attempts. */
  ghost predicate OpenWindow(plan: Plan, id: Id, calls: nat) {
    exists n :: n in plan.doc.nodes && n.id == id && WithinBudget(n, calls)
  }

  /**
   * Every executor call belongs to the node that started last and has not ended; it is numbered by the
   * attempts since, keeps within that node's budget, and never follows a success or a cancellation.
   */
  lemma RetriesAreBounded(plan: Plan, scope: Json.Scope, trace: seq<Entry>)
    requires Accepted(plan, scope, trace) && trace != [] && trace[|trace| - 1].step.Call?
    ensures
      var before, step := TallyOf(trace[..|trace| - 1]), trace[|trace| - 1].step;
      && before.node.Some? && step.attempt == before.calls + 1
      && OpenWindow(plan, before.node.value, step.attempt)
      && (before.last.Some? ==> before.last.value.Errored? && before.last.value.error != Cancelled)
      && (before.last.None? ==> before.calls == 0)
  {
    AcceptedPrefix(plan, scope, trace);
    var init, last := trace[..|trace| - 1], trace[|trace| - 1];
    RunIsTallied(plan, scope, init);
    RunIsTallied(plan, scope, trace);
    CallStep(plan, Replay(plan, scope, init), last);
  }

  lemma CallStep(plan: Plan, m: Monitor, entry: Entry)
    requires entry.step.Call? && !Observe(plan, m, entry).phase.Rejected?
    ensures m.phase.Window? && MayCall(m.phase, entry.step.attempt)
    ensures Observe(plan, m, entry).phase ==
      Window(m.phase.node, entry.step.attempt, true, m.phase.last)
  {
    hide OnEvent;
  }
}
