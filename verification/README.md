# Verified model of Nodara

Nodara runs workflow graphs: a Rust engine executes them, an agent has a language model write them and
runs them, and a TypeScript editor draws them. This project models the parts of the three whose behaviour
is intricate and proves what they promise, for every input, every run and every interleaving. `dafny verify
dfyconfig.toml` checks all of it.

## How it is built

**The engine** (`Engine`, `RunTrace`, `RunSteps`). `WorkflowRun` is the run loop as a class with the
engine's own mutable state. Executors, policy decisions, approvals and the operator's commands are infinite
scripts in an `Environment`, so a contract about every run is a contract about every script; other threads
get a turn before every look at the shared flags. Each run records a ghost trace of polls, looks at the gate,
visits, policy's consent or refusal, waits, executor calls and events, stamped with the cancellation flag.
`RunTrace` is an acceptor for such traces that keeps its own memory; the engine is proved to produce only accepted
traces and to publish exactly their events. `RunLaws`, `DataLaws`, `NodeLaws`, `RoutingLaws`, `ActivationLaws`,
`CancelLaws`, `GateLaws`, `EndLaws` and `SecretLaws` prove what any accepted trace guarantees, in terms of the document,
the events and the recorded steps alone, and `RunTheorems` restates them for a finished run of the class.

**Under the engine.** `RunControl` is the pause/step/cancel monitor, once as a class and once as a transition
system of operators and waiters under a lock and a condition variable. `WorkflowGraph` is the scheduler,
`Template` the secret-masking template resolver with `TemplateLaws`, `PlaceholderLaws` and `ConfigLaws` about it, `Retry` the backoff arithmetic in 32 and 64
bits, `Events` the numbered bus, `Audit` the audit logs with crashes and torn writes.

**The agent** (`Policy`, `Agent`, `AgentProtocol`, `UrlSegment`): budgets in machine words, the tool policy, the
plan/repair/run loop against an arbitrary model and runtime with a log of its effects, an acceptor for such logs,
and the percent-encoder.

**The editor** (`EditorGraph`, `Levels`, `LevelLaws`, `Layout`, `LayoutLaws`, `Canvas`, `FreshIds`, `Groups`,
`GroupLaws`, `OrderedSets`, `Sorting`): cycle check, automatic layout, path selection, connections, fresh ids and
node groups.

`Digraph` holds what the graph algorithms share: walks, cycles, the pigeonhole principle and the bookkeeping of
Kahn's algorithm. `Json`, `Text` and `Workflow` hold the data model, `Words` the machine words.

## What the proofs found

- `topological_order` (graph.rs:177-234) pops its initial queue without a membership test, so an id without incoming
  control edges that is declared twice is scheduled twice. The length comparison then goes wrong both ways: it can
  accept a cyclic graph (`WorkflowGraph.RepeatedRootHidesCycle`), and it refuses every acyclic one, with an empty list
  of nodes (`WorkflowGraph.RepeatedRootIsRefused`). `WorkflowGraph.TopologicalOrder` proves that
  without such an id the answer is right, and that with one every acceptance, and every refusal of an acyclic graph, is
  wrong; validation rejects these documents, but runs can be started without validation.
- The editor's cycle check counts data edges and the runtime's scheduler does not (workflow.ts:290-294), so the editor
  finds cycles the runtime does not (`EditorGraph.EditorIsStricter`). Conversely a clean bill from the editor means no
  cycle for the runtime, and a document the runtime accepts exactly when no root is declared twice:
  `EditorGraph.TwinsAreRefused` is clean for the one and refused by the other.
- The editor's layout queues its roots the same way (canvas.ts:584-586). The exact condition under which every acyclic
  graph on a list of ids still runs left to right is that no id repeats but the one declared last, or that there are at
  most three (`LayoutLaws.RunsRightIffOnlyLastRepeats`).
- It moves only the first declaration of an id (canvas.ts:622-628). Those never overlap; a later declaration stays where
  it was and can be in the way (`LayoutLaws.LaterDeclarationOverlaps`, and `Layout.AllApartIffLaterKeepClear` exactly when).
- A retry budget of 2^32-1 never runs out because the attempt counter saturates there (engine.rs:649-653). `Engine.Run`
  therefore asks, for such nodes only, that the executor eventually succeeds or gives up.
- The backoff clips its shift at 63 (engine.rs:924-934); for a base of 1 ms, 65 or more failures and no cap,
  or one above 2^63, the delay is 2^63 instead of the cap or the largest word. Nowhere else does it differ from the
  ideal value.
- A text that, trimmed, ends in three braces is an exact placeholder for `resolve_config` but not for `interpolate`
  (context.rs:451-459). `TemplateLaws.StringFieldsRenderAsText` is the exact condition under which the two agree in
  every scope, `TemplateLaws.ThreeBracesDisagree` the scopes in which they do not.
- A variable whose name holds a dot can be set, but no placeholder reaches it (context.rs:220-222, 437-449).
- Secret values never show in template output, but which dotted paths resolve below a secret does; that is all that
  shows.
- An audit file that cannot be read on reopening restarts numbering at zero (audit.rs:187-197); that is harmless
  exactly when no finished line holds a record (`Audit.BlindReopenIsSafeIffNothingIsWritten`).
- A step budget of 2^32-1 is no budget in release builds: the counter wraps (policy.rs:72-73).
- The agent runs a document it parsed even if the planner's verdict on it was negative (agent.rs:458-465); guardrails
  are the only gate, and that gate is proved.

## Model

| member | source | states |
|---|---|---|
| Engine.Run | Nodara-Core/crates/nodara-core/src/engine.rs:331-857 | For every document, option, executor, policy and operator script the run ends; its trace is one the protocol accepts and is published in full; failure is absent exactly when the status is Completed. The scope starts with the caller's overrides over the document's defaults. A request turned down beforehand (not valid, no entry, no schedule) fails with that code and has executed nothing. On every document without a control cycle, and on every one without a root id declared twice, no node is visited twice, and a run that completes with no NodeFinished of a `core.End` in its stream has visited exactly the declared nodes that its EdgeActivated events lead to from the entry; a completed run means a cycle exactly if a root is declared twice |
| RunTheorems.EveryRunFollowsTheGrammar | Nodara-Core/crates/nodara-core/src/engine.rs:421-856 | One terminal event, last, matching the outcome; envelope numbers are the positions in the stream modulo 2^64; `nodes_executed` is the number of NodeFinished events and never exceeds `max_nodes`; no node starts twice unless a root id is declared twice |
| RunTheorems.EveryStartIsClosed | Nodara-Core/crates/nodara-core/src/engine.rs:620-804 | Every NodeStarted is closed by the same node's NodeFinished or NodeFailed with only executor chatter in between, unless the run is cancelled at that point |
| RunTheorems.EveryRunReactsToCancel | Nodara-Core/crates/nodara-core/src/engine.rs:440-461 | Wherever `cancel` falls, at most one executor call starts and at most one node finishes after it |
| RunTheorems.EveryRunKeepsSecrets | Nodara-Core/crates/nodara-core/src/engine.rs:373-378 | Every scope in the stream holds every variable of the run's scope at that step, three stars for exactly those the document declares secret and its own value for every other; and redacted scope and resolved configuration would be the same for every scope that differs only in values of variables so declared |
| RunTheorems.EveryOutcomeKeepsSecrets | Nodara-Core/crates/nodara-core/src/engine.rs:806-856 | The variables a run that began hands out are its last scope, shown in the same way |
| RunTheorems.EveryStartIsFed | Nodara-Core/crates/nodara-core/src/engine.rs:588-609 | Before each start there is, since the node's visit, exactly one DataTransferred per data edge of the document into the node with both ports named, in document order, with what the stream last reported of the source's port or null; the inputs are the values written last to each target port |
| RunTheorems.EveryRunFollowsTheOutcome | Nodara-Core/crates/nodara-core/src/engine.rs:717-786 | Whenever a run leaves a node behind, the EdgeActivated events since its visit are exactly its control edges, in document order, with no guard or a truthy one, and of any branch but the other outcome's: failure edges after a success or a disabled node, success edges after a failure |
| RunTheorems.EveryRunShowsTheDueEdges | Nodara-Core/crates/nodara-core/src/engine.rs:717-786 | The same of the stretch since the routing began, and also when the run ends while routing |
| RunTheorems.EveryVisitIsPermitted | Nodara-Core/crates/nodara-core/src/engine.rs:458-462 | Each visit comes after a look at the gate, since the visit before it, whose flags let the engine through |
| RunTheorems.EveryStartIsCleared | Nodara-Core/crates/nodara-core/src/engine.rs:487-586 | Each node that starts is enabled, its condition held, policy allowed its type since its visit, and its breakpoint was honoured: the run was found paused, or was paused, reported paused, and let through again |
| RunTheorems.EveryCallIsSpaced | Nodara-Core/crates/nodara-core/src/engine.rs:641-667 | Before each executor call there is exactly one wait since the start or the call before it, of exactly `delay_before_ms` or the backoff of the attempts so far |
| RunTheorems.RefusalsFailTheRun | Nodara-Core/crates/nodara-core/src/engine.rs:540-586 | After policy or an approver refuses a node nothing is called, started, routed or visited; the run fails with E_PERMISSION_DENIED |
| RunLaws.StreamIsWellFormed | Nodara-Core/crates/nodara-core/src/engine.rs:421-856 | Every accepted trace publishes a stream of the event grammar, over exactly when the run has ended |
| RunLaws.OneTerminalEventAtTheEnd | Nodara-Core/crates/nodara-core/src/engine.rs:812-834 | A stream of that grammar which is over ends with its only terminal event |
| RunLaws.WindowsDoNotNest | Nodara-Core/crates/nodara-core/src/engine.rs:620-804 | Inside a window only chatter, the node's own end, or the final cancellation may follow |
| RunLaws.EveryWindowCloses | Nodara-Core/crates/nodara-core/src/engine.rs:620-804 | In a stream that is over each window has a closing event |
| RunLaws.DataEdgesAgreeWithTheLog | Nodara-Core/crates/nodara-core/src/engine.rs:588-630 | Each DataTransferred value is what the source's last NodeFinished reports for the port, or Null if it does not or there is none; each NodeStarted has an input exactly on the ports written to by the transfers just before it, with the value written last |
| DataLaws.StartsAreFed | Nodara-Core/crates/nodara-core/src/engine.rs:588-609 | In every accepted trace: what EveryStartIsFed says of a run |
| DataLaws.TransfersFollowTheEdges | Nodara-Core/crates/nodara-core/src/engine.rs:588-609 | A transfer is published only for the node visited last, and only as the next of the data edges that lead into it, with the value on record |
| DataLaws.InputsAreThePortsFed | Nodara-Core/crates/nodara-core/src/engine.rs:588-609 | A started node has an input on a port exactly if some data edge into it names its source port and, as target, that port |
| NodeLaws.StartsAsDeclared | Nodara-Core/crates/nodara-core/src/engine.rs:463-628 | A start tells type, configuration and timeout of the node declared first under the id visited last, which is enabled and whose condition, if any, is truthy; with the redacted scope and the configuration resolved by the type's schema |
| NodeLaws.SkipsAreCalledFor | Nodara-Core/crates/nodara-core/src/engine.rs:487-524 | A node is skipped only if it is enabled and its condition is falsy |
| NodeLaws.RoutesAreCalledFor | Nodara-Core/crates/nodara-core/src/engine.rs:467-801 | Edges are followed as after a success only for a disabled node or after its NodeFinished; as after a failure only after its NodeFailed, if it has a failure edge or lets the run continue |
| NodeLaws.EdgesFollowTheOutcome | Nodara-Core/crates/nodara-core/src/engine.rs:942-975 | In every accepted trace: what EveryRunFollowsTheOutcome says of a run |
| NodeLaws.FailuresAreHandled | Nodara-Core/crates/nodara-core/src/engine.rs:759-790 | A failed node is left behind only with an edge activated, or if it lets the run continue |
| NodeLaws.RunsFailForAReason | Nodara-Core/crates/nodara-core/src/engine.rs:450-801 | A run fails before its start, at the node limit, over a type that is not registered, over a condition or a refusal, or over an executor's failure of a node that does not let it continue and none of whose failure edges fires; the report is then the node's own |
| NodeLaws.TheScopeStands | Nodara-Core/crates/nodara-core/src/engine.rs:588-749 | Between steps the scope changes only when an executor returns, to what it left, and with the reports of a node's end |
| NodeLaws.SuccessesAreReported | Nodara-Core/crates/nodara-core/src/engine.rs:677-702 | NodeFinished has the outputs the executor returned; afterwards the scope holds its variables, and in a non-empty result variable the output on the result port or Null, else that on `out`, else the first one, else Null; all else is as before |
| NodeLaws.FailuresAreReported | Nodara-Core/crates/nodara-core/src/engine.rs:732-749 | Before a start a node fails by refusal or by a malformed condition, and the scope stays; after it, code, message and retryable are those of the error the executor returned, and `last_error` holds them with the node's id |
| NodeLaws.RunsAnnounceThePause | Nodara-Core/crates/nodara-core/src/engine.rs:421-427 | The first event of a run that begins is RunStarted, and the next step is RunPaused exactly if it is to start paused |
| RunLaws.CountsMatchTheLog | Nodara-Core/crates/nodara-core/src/engine.rs:450-457 | The executed count equals the NodeFinished events and respects `max_nodes`; starts are among the visits and as unique as they |
| ActivationLaws.RunIsChained | Nodara-Core/crates/nodara-core/src/engine.rs:434-804 | At every point of a run, activated nodes are linked to the entry by published activations, and activations follow control edges out of visited nodes |
| ActivationLaws.VisitsFollowActivations | Nodara-Core/crates/nodara-core/src/engine.rs:446-448 | A node is visited only after a chain of EdgeActivated events from the entry |
| ActivationLaws.OnePassComputesTheFixpoint | Nodara-Core/crates/nodara-core/src/engine.rs:434-804 | If nothing activated was left behind, visits are exactly the closure of the entry under the published activations |
| RoutingLaws.DueEdgesArePublished | Nodara-Core/crates/nodara-core/src/engine.rs:717-786 | The same of every accepted trace |
| RoutingLaws.OnlyDueEdgesArePublished | Nodara-Core/crates/nodara-core/src/engine.rs:717-786 | In every accepted trace an EdgeActivated event comes only while a node is routed, and is the next one due there |
| CancelLaws.CancelTakesHoldQuickly | Nodara-Core/crates/nodara-core/src/engine.rs:641-716 | Over all accepted traces, at most one Call and one NodeFinished are stamped cancelled |
| CancelLaws.RetriesAreBounded | Nodara-Core/crates/nodara-core/src/engine.rs:647-668 | Every executor call belongs to the open window, is numbered by its attempts, stays within `retry`+1 (below saturation), and never follows a success or a cancellation |
| SecretLaws.StreamKeepsSecrets | Nodara-Core/crates/nodara-core/src/engine.rs:373-378 | The same of every event of every accepted trace, against the scope the trace has at that event |
| SecretLaws.StartsResolve | Nodara-Core/crates/nodara-core/src/context.rs:379-385 | Each start resolves the node's configuration in the scope of that moment, masking the variables declared secret, by the schema its type is registered with |
| GateLaws.BooksAreKept | Nodara-Core/crates/nodara-core/src/engine.rs:440-716 | At every point of a run the protocol's clearances are what the steps since the last visit settle: permission, breakpoint, consent, waits |
| GateLaws.VisitsArePermitted | Nodara-Core/crates/nodara-core/src/engine.rs:458-462 | In every accepted trace: no visit without a look at the gate, since the visit before, whose flags let the engine through |
| GateLaws.StartsAreCleared | Nodara-Core/crates/nodara-core/src/engine.rs:487-586 | In every accepted trace: no start without the condition, the honoured breakpoint and policy's consent to the node's own type, all since its visit |
| GateLaws.CallsAreSpaced | Nodara-Core/crates/nodara-core/src/engine.rs:641-667 | In every accepted trace: one wait of exactly the delay, or of exactly the backoff so far, before each call |
| GateLaws.RoutesWait | Nodara-Core/crates/nodara-core/src/engine.rs:712-716 | The edges of a node that finished are followed after exactly one wait, of exactly `delay_after_ms` |
| GateLaws.RefusalIsFinal | Nodara-Core/crates/nodara-core/src/engine.rs:540-586 | After a refusal only polls and the two failure reports follow, with E_PERMISSION_DENIED |
| EndLaws.ClosingMeansEndFinished | Nodara-Core/crates/nodara-core/src/engine.rs:712-731 | A completed run was closing before its end exactly when its stream holds a NodeFinished of a `core.End` |
| EndLaws.NothingLeftBehind | Nodara-Core/crates/nodara-core/src/engine.rs:434-804 | A run that has visited every declared node it activated has visited exactly the closure of the entry under its published activations |
| Engine.WorkflowRun.IsCancelled | Nodara-Core/crates/nodara-core/src/engine.rs:441-445 | Polls the flag; a negative answer is recorded as a poll, a positive one means the flag is up |
| Engine.WorkflowRun.WaitInterruptible | Nodara-Core/crates/nodara-core/src/engine.rs:861-872 | An uncancelled wait sleeps exactly its total in slices and is on the record with it; it gives up only with the flag up |
| Engine.WorkflowRun.AwaitPermission | Nodara-Core/crates/nodara-core/src/engine.rs:458-462 | Returns true only with the gate's permission on the record, and refused only when the run is cancelled |
| Engine.WorkflowRun.TryGate | Nodara-Core/crates/nodara-core/src/control.rs:106-124 | One look at the gate: the verdict and the flags after it are the monitor's, and permission is recorded with the flags that gave it, exactly if granted |
| Engine.WorkflowRun.EdgeIsTaken | Nodara-Core/crates/nodara-core/src/engine.rs:942-975 | An edge is taken exactly when it is unconditional or of the branch of the outcome and its guard, if any, is truthy; a malformed guard counts as false |
| Engine.WorkflowRun.RouteEdges | Nodara-Core/crates/nodara-core/src/engine.rs:717-727 | Activates exactly the document's control edges out of the node that fire, in document order, and says whether there was one |
| Engine.WorkflowRun.RouteOut | Nodara-Core/crates/nodara-core/src/engine.rs:473-484 | All eligible edges of a node that did not fail, then back to the loop or, after a `core.End`, to the end |
| Engine.WorkflowRun.GatherInputs | Nodara-Core/crates/nodara-core/src/engine.rs:588-609 | Moves one value along each data edge of the document into the node that names both ports, in document order, from what its source has produced or else null; the inputs are the values written last |
| Engine.WorkflowRun.Execute | Nodara-Core/crates/nodara-core/src/engine.rs:650 | One executor call, with what it publishes and the scope it leaves |
| Engine.WorkflowRun.TryOnce | Nodara-Core/crates/nodara-core/src/engine.rs:649-667 | One turn of the retry loop: one call, and after a failure within the budget a sleep of exactly the backoff of that attempt, before the next turn is allowed |
| Engine.WorkflowRun.ExecuteWithRetry | Nodara-Core/crates/nodara-core/src/engine.rs:647-674 | Ends with a success or an unretryable failure having slept exactly the sum of the backoffs, or interrupted with the flag up; terminates for every `retry` below 2^32-1 |
| Engine.WorkflowRun.CheckCondition | Nodara-Core/crates/nodara-core/src/engine.rs:487-524 | Proceeds, skips or fails the run exactly as the condition evaluates |
| Engine.WorkflowRun.StopAtBreakpoint | Nodara-Core/crates/nodara-core/src/engine.rs:526-538 | True only past the breakpoint: the run was paused already, or it is paused, reported and let through again; refused only when cancelled |
| Engine.WorkflowRun.Authorize | Nodara-Core/crates/nodara-core/src/context.rs:269-328 | Denied, with the decision's reason, exactly when policy denies, or requires an approval that is not given; otherwise consent is on the record |
| Engine.WorkflowRun.Admit | Nodara-Core/crates/nodara-core/src/engine.rs:487-586 | A node proceeds only with its condition true, its breakpoint passed, its type registered, and policy asked once and not refusing; a refusal fails the run with E_PERMISSION_DENIED; otherwise the run is skipped, halted or failed with the matching report |
| Engine.WorkflowRun.PassThrough | Nodara-Core/crates/nodara-core/src/engine.rs:467-485 | A disabled node activates its success edges and runs nothing |
| Engine.WorkflowRun.Report | Nodara-Core/crates/nodara-core/src/engine.rs:677-702 | Publishes variables and the captured result, stores the outputs, counts the node |
| Engine.WorkflowRun.FollowSuccess | Nodara-Core/crates/nodara-core/src/engine.rs:712-731 | After a sleep of exactly `delay_after_ms` the eligible edges are activated; `core.End` ends the run as completed |
| Engine.WorkflowRun.ReportFailure | Nodara-Core/crates/nodara-core/src/engine.rs:732-749 | The scope learns `last_error` and the failure is published with the redacted scope |
| Engine.WorkflowRun.FollowFailure | Nodara-Core/crates/nodara-core/src/engine.rs:759-801 | A failure is handled by a taken failure edge or `continue_on_error`; otherwise the run stops with its code and message; a cancellation is never routed |
| Engine.WorkflowRun.Drive | Nodara-Core/crates/nodara-core/src/engine.rs:440-804 | The main loop: along a valid schedule visits are distinct and every activated earlier node has been visited |
| Engine.WorkflowRun.Abort | Nodara-Core/crates/nodara-core/src/engine.rs:882-907 | A run that cannot be scheduled publishes RunFailed, finishes its control and returns the seeded scope |
| Engine.WorkflowRun.Finish | Nodara-Core/crates/nodara-core/src/engine.rs:806-856 | Publishes the terminal event for the status, finishes the control, and returns the redacted scope |
| Retry.DelaysGrowWithinTheCap | Nodara-Core/crates/nodara-core/src/engine.rs:924-934 | Delays never decrease with the attempt and never exceed the cap or 64 bits |
| Retry.DelayIsIdealOutsideTheCorner | Nodara-Core/crates/nodara-core/src/engine.rs:924-934 | The delay equals min(cap, base*2^(k-1)), saturating, if and only if the input is not the corner where the shift is clipped: base 1, attempt 65 or later, and no cap or one above 2^63 |
| Retry.RetryIsBoundedBelowSaturation | Nodara-Core/crates/nodara-core/src/engine.rs:647-655 | The budget is exhausted after `retry`+1 attempts, and is ever exhausted exactly when `retry` < 2^32-1 |
| Events.EventBus.Emit | Nodara-Core/crates/nodara-core/src/events.rs:110-116 | Appends the event to the stream; numbers stay the positions modulo 2^64 |
| WorkflowGraph.TopologicalOrder | Nodara-Core/crates/nodara-schema/src/graph.rs:177-234 | Whether or not ids repeat the answer is the one a queue from the declared roots drains to; an accepted order is a valid schedule exactly when no root id is declared twice; under that condition acceptance means acyclicity, and a refusal names exactly the nodes on or behind a cycle in document order. An acyclic document is accepted exactly under that condition too, and an accepted one is acyclic exactly under it |
| WorkflowGraph.ScheduleIsExact | Nodara-Core/crates/nodara-schema/src/graph.rs:177-234 | The same of the queue itself, for every document |
| WorkflowGraph.RepeatedRootIsRefused | Nodara-Core/crates/nodara-schema/src/graph.rs:192-233 | Every acyclic document with a root declared twice is refused, with an empty list of nodes |
| WorkflowGraph.RepeatedRootHidesCycle | Nodara-Core/crates/nodara-schema/src/graph.rs:192-222 | With a root declared twice and a node that has an edge to itself the scheduler accepts, with the root twice and the other node never |
| WorkflowGraph.QueueIsScheduledInOrder | Nodara-Core/crates/nodara-schema/src/graph.rs:192-214 | First in, first out: whatever is queued at any point is scheduled next, in the order of the queue |
| WorkflowGraph.OrdersStartWithTheRoots | Nodara-Core/crates/nodara-schema/src/graph.rs:192-197 | An accepted order starts with the declared nodes that no control edge from a declared node leads to, in declaration order |
| WorkflowGraph.DuplicateRootMeans | Nodara-Core/crates/nodara-schema/src/graph.rs:192-197 | A root is declared twice exactly if two declarations share an id that no control edge from a declared node leads to |
| WorkflowGraph.CountIncoming | Nodara-Core/crates/nodara-schema/src/graph.rs:178-190 | In-degrees count the control edges with both ends declared |
| WorkflowGraph.RelaxEdges | Nodara-Core/crates/nodara-schema/src/graph.rs:201-214 | For every document: the declared targets of the node lose one from their counts in document order, none goes below zero, and those that reach zero are queued in that order |
| WorkflowGraph.EntryNode | Nodara-Core/crates/nodara-schema/src/graph.rs:146-152 | The first `core.Start` if there is one, else the first node without incoming control edges, else none exactly when there is no such node |
| RunControl.NoLostWakeupAndConservedSteps | Nodara-Core/crates/nodara-core/src/control.rs:50-124 | In every interleaving of operators and waiters: asleep and unnotified implies the gate is shut; unpaused implies no budget unless cancelled or finished; below saturation steps issued equal budget plus steps consumed |
| RunControl.PausedPassesAreStepped | Nodara-Core/crates/nodara-core/src/control.rs:106-124 | While paused, the passes granted never exceed the steps issued |
| RunControl.OpenGateDrains | Nodara-Core/crates/nodara-core/src/control.rs:106-124 | With the gate open every waiting thread gets through |
| RunControl.FlagsAreSticky | Nodara-Core/crates/nodara-core/src/control.rs:73-86 | Cancelled and finished are never cleared by any sequence of operations |
| RunControl.TheGateFollowsTheHistory | Nodara-Core/crates/nodara-core/src/control.rs:50-124 | After any history of operations a look at the gate is refused exactly if there was a cancel; it blocks exactly if the last word was a pause or a step, no step is left since the last resume, and there was neither cancel nor finish; else it is granted and takes one step if the gate is shut and there is one |
| RunControl.Control.Pause | Nodara-Core/crates/nodara-core/src/control.rs:51-54 | The flags after the call are those of the transition the interleaving theorems range over |
| RunControl.Control.Resume | Nodara-Core/crates/nodara-core/src/control.rs:57-62 | The flags after the call are those of the transition the interleaving theorems range over |
| RunControl.Control.Step | Nodara-Core/crates/nodara-core/src/control.rs:65-70 | The flags after the call are those of the transition the interleaving theorems range over |
| RunControl.Control.Cancel | Nodara-Core/crates/nodara-core/src/control.rs:73-78 | The flags after the call are those of the transition the interleaving theorems range over |
| RunControl.Control.Finish | Nodara-Core/crates/nodara-core/src/control.rs:81-86 | The flags after the call are those of the transition the interleaving theorems range over |
| RunControl.Control.TryPass | Nodara-Core/crates/nodara-core/src/control.rs:106-124 | One look at the flags under the lock: granted, refused or blocked, consuming one step when paused |
| TemplateLaws.SecretsDoNotInterfere | Nodara-Core/crates/nodara-core/src/context.rs:333-449 | Scopes with the same names, equal public values and the same resolvable dotted paths give identical interpolation, resolution, configuration and redacted scope on every input |
| TemplateLaws.IndistinguishableIffLowEquivalent | Nodara-Core/crates/nodara-core/src/context.rs:201-449 | And only those: two scopes over the same secrets yield the same text and redaction everywhere exactly when they are related that way, so the shape below a secret is the one thing that shows |
| TemplateLaws.ConfigWithoutExactLeaves | Nodara-Core/crates/nodara-core/src/context.rs:379-430 | Schema-directed resolution equals plain resolution when no leaf is a resolvable exact placeholder |
| TemplateLaws.ConfigKeepsSkeleton | Nodara-Core/crates/nodara-core/src/context.rs:387-430 | Object keys and array lengths survive, away from replaced leaves |
| ConfigLaws.ResolvedInPlace | Nodara-Core/crates/nodara-core/src/context.rs:387-430 | Whatever stands at a path of a configuration is resolved there by the schema its own path leads to: a key in `properties` wins, else an object `additionalProperties`; array elements use `items` |
| ConfigLaws.PlaceholderLeaves | Nodara-Core/crates/nodara-core/src/context.rs:392-521 | A text leaf anywhere that asks for one name becomes what the name leads to, by the first of string, integer, number and boolean that the schema at its path accepts; null stays null, and other values are kept |
| ConfigLaws.OtherLeaves | Nodara-Core/crates/nodara-core/src/context.rs:392-400 | Every other text leaf holds its interpolated text, and other scalars stay |
| ConfigLaws.StringLeavesRenderAsText | Nodara-Core/crates/nodara-core/src/context.rs:392-481 | A leaf anywhere whose schema accepts strings holds the interpolated text in every scope that gives its placeholder a non-null value, if and only if it needs no trimming and does not close with three braces |
| ConfigLaws.IntegerLeavesReadNumerals | Nodara-Core/crates/nodara-core/src/context.rs:482-496 | A leaf anywhere whose schema accepts integers and not strings becomes the number its text spells; one that does not fit stays text |
| PlaceholderLaws.ExactPlaceholdersAsk | Nodara-Core/crates/nodara-core/src/context.rs:451-459 | The exact placeholders are the texts of one name in double braces, with white space around braces and name at most, and no double brace in the name |
| PlaceholderLaws.PlaceholdersAreReplaced | Nodara-Core/crates/nodara-core/src/context.rs:333-355 | The first double brace with a closing one is replaced, if its trimmed name leads to a value, by that value's text (nothing for null), and the rest comes next; otherwise one brace stays |
| PlaceholderLaws.DottedNamesLead | Nodara-Core/crates/nodara-core/src/context.rs:437-449 | A name without a dot is a variable's; one more segment leads one field down an object and nowhere else |
| PlaceholderLaws.SecretNamesAreMasked | Nodara-Core/crates/nodara-core/src/context.rs:445-447 | What a name leads to is masked exactly if the variable it starts from is secret |
| TemplateLaws.StringFieldsRenderAsText | Nodara-Core/crates/nodara-core/src/context.rs:469-481 | For a string schema an exact placeholder becomes the interpolated text in every scope that gives it a non-null value, if and only if it needs no trimming and does not close with three braces |
| TemplateLaws.ThreeBracesDisagree | Nodara-Core/crates/nodara-core/src/context.rs:451-467 | Closing with three braces, a placeholder whose value is the empty text resolves to it, and interpolation never does |
| TemplateLaws.TypedFieldsKeepValue | Nodara-Core/crates/nodara-core/src/context.rs:469-521 | Without a string type the looked-up value replaces the leaf unchanged, unless it is text that spells a value of the first scalar type the schema names, and then the leaf becomes that very value: the parsed integer, the parsed number, or whether the text is `true` in any case |
| TemplateLaws.NumeralsParse | Nodara-Core/crates/nodara-core/src/context.rs:489-492 | A numeral parses to its number exactly when it fits a signed 64-bit word |
| TemplateLaws.IntegerFieldsReadNumerals | Nodara-Core/crates/nodara-core/src/context.rs:482-496 | Text in an integer field becomes the number it spells; one that does not fit stays text |
| TemplateLaws.InterpolatePlain | Nodara-Core/crates/nodara-core/src/context.rs:333-355 | Text without an opening brace pair is returned unchanged |
| Template.ExecutionContext.InterpolateText | Nodara-Core/crates/nodara-core/src/context.rs:333-355 | The scanning loop computes the recursive interpolation: leftmost resolvable placeholder first, replaced text not rescanned |
| Template.ExecutionContext.LookupVariable | Nodara-Core/crates/nodara-core/src/context.rs:437-449 | The walking loop computes the dotted-path lookup, masked when its head is secret |
| Template.ExecutionContext.SetVariable | Nodara-Core/crates/nodara-core/src/context.rs:220-222 | Read back under its own name, masked if secret; lookups that do not start with that name are unaffected; a variable with a dot in its name is out of reach of every lookup |
| Audit.NumbersStayUnique | Nodara-Core/crates/nodara-core/src/audit.rs:177-233 | Over every interleaving of reserving and appending, torn and lost writes, crashes and readable reopenings, with fewer than 2^64 numbers: the numbers that can be read are distinct and none in flight is among them |
| Audit.EveryNumberIsAccountedFor | Nodara-Core/crates/nodara-core/src/audit.rs:150-154 | While no write fails, the numbers written or in flight are exactly those handed out, each once |
| Audit.BlindReopenRepeats | Nodara-Core/crates/nodara-core/src/audit.rs:187-197 | After such a reopening recorders can repeat any number in a finished line, by a concrete later interleaving |
| Audit.BlindReopenIsSafeIffNothingIsWritten | Nodara-Core/crates/nodara-core/src/audit.rs:187-197 | A reopening that cannot read the file never leads to a number readable twice, for any later interleaving that stays below 2^64, if and only if no finished line holds a record |
| Audit.OneLogAtATime | Nodara-Core/crates/nodara-core/src/audit.rs:177-202 | Two logs open on the same file write the same number twice |
| Audit.JsonlAuditLog.Open | Nodara-Core/crates/nodara-core/src/audit.rs:177-202 | The log opens in the state the interleaving theorems reopen to: one past the largest readable number, or zero if there is none or the file cannot be read |
| Audit.JsonlAuditLog.Append | Nodara-Core/crates/nodara-core/src/audit.rs:211-234 | The file and the numbers in flight move as the interleaving theorems write: whole, torn or lost, bytes after an unfinished line spoiling it |
| Audit.JsonlAuditLog.Reserve | Nodara-Core/crates/nodara-core/src/audit.rs:212 | The log moves as the interleaving theorems reserve, and the caller holds the number taken |
| Audit.JsonlAuditLog.Records | Nodara-Core/crates/nodara-core/src/audit.rs:236-246 | Exactly the lines that read as records, oldest first |
| Audit.InMemoryAuditLog.Reserve | Nodara-Core/crates/nodara-core/src/audit.rs:152 | The log moves as the interleaving theorems reserve, and the caller holds the number taken |
| Audit.InMemoryAuditLog.Push | Nodara-Core/crates/nodara-core/src/audit.rs:153 | The log moves as the interleaving theorems write without failure |
| Agent.Converse | Nodara-Agent/crates/nodara-agent/src/agent.rs:320-660 | For every provider and runtime a session ends; everything it publishes or runs is permitted by the catalogue the runtime listed; it starts a run only if asked to or configured to and otherwise leaves the plan; at most 3*(max_repairs+1) model calls, at most max_steps of them (the counter not saturating), at most two run starts, tokens within budget for every outcome returned; if the runtime knows the session, the last it hears is the status that goes with how the session ended |
| AgentProtocol.SessionsAreBounded | Nodara-Agent/crates/nodara-agent/src/agent.rs:382-660 | Every lawful log has at most three planning attempts, two run starts and 3*(max_repairs+1) model calls |
| AgentProtocol.RunsAreClearedFirst | Nodara-Agent/crates/nodara-agent/src/agent.rs:468-545 | A run starts only with a document the guardrails permit, by the verdict on the latest draft, and only after earlier runs that failed in a way worth planning again |
| AgentProtocol.PlansAreClearedFirst | Nodara-Agent/crates/nodara-agent/src/agent.rs:468-515 | A plan is published only as cleared by the verdict on the latest draft |
| AgentProtocol.UninformedPlansAreReviewed | Nodara-Agent/crates/nodara-agent/src/agent.rs:485-509 | There is at most one review, and no plan that draws on nothing the workflow observes is published or run before it |
| AgentProtocol.LostRunsAreCancelled | Nodara-Agent/crates/nodara-agent/src/agent.rs:960-990 | A run lost from sight is cancelled at once, and no other run is |
| AgentProtocol.ReplannableMeans | Nodara-Agent/crates/nodara-agent/src/agent.rs:1000-1054 | A run is worth another plan exactly if it was watched to a failure with E_INVALID_CONFIG or E_EXECUTION |
| AgentProtocol.StatusWritesFrameTheSession | Nodara-Agent/crates/nodara-agent/src/agent.rs:890-904 | Planning is written only first, by a resumed session; any other status only last |
| AgentProtocol.FinalStatusIsTrue | Nodara-Agent/crates/nodara-agent/src/agent.rs:508-657 | Completed is written right after a run reported completed; Ready only for a cleared plan of a session that never ran |
| AgentProtocol.FinalStatusIsTheRuns | Nodara-Agent/crates/nodara-agent/src/agent.rs:617-657 | Whatever happened since, a session that has run is left with the status the runtime reported for its last run (completed, cancelled, running or paused), and with failed for anything else: a refused start, lost contact, or a failure no new plan came after |
| Agent.Session.MakePlan | Nodara-Agent/crates/nodara-agent/src/planner.rs:159-245 | The plan is the first acceptable draft, or the one after the last repair; one charged call per draft; tokens are their sum |
| Agent.Session.Ask | Nodara-Agent/crates/nodara-agent/src/planner.rs:180-191 | Charges before each call: a refused charge makes no call |
| Agent.Session.Propose | Nodara-Agent/crates/nodara-agent/src/agent.rs:418-490 | A plan within budget that the guardrails permit, or the end of the session with its status written |
| Agent.Session.Vet | Nodara-Agent/crates/nodara-agent/src/agent.rs:466-482 | Passes exactly the documents permitted by the catalogue the runtime listed; a refusal names a node and what is held against it, and ends the session as failed |
| Agent.Session.RunOnce | Nodara-Agent/crates/nodara-agent/src/agent.rs:907-1054 | Judges the runtime's answer; lost contact cancels the run; only E_INVALID_CONFIG and E_EXECUTION failures are replannable, and only once |
| Agent.Session.Open | Nodara-Agent/crates/nodara-agent/src/agent.rs:694-750 | Which session is published: none offline, unpublished, or when it cannot be loaded or created; a resumed one is set to Planning |
| Agent.Session.Finish | Nodara-Agent/crates/nodara-agent/src/agent.rs:890-894 | Writes the final status if a session was published |
| Agent.Session.Work | Nodara-Agent/crates/nodara-agent/src/agent.rs:382-660 | The loop: plan, guardrails, one review, at most two runs |
| Agent.TokensFit | Nodara-Agent/crates/nodara-agent/src/planner.rs:200-243 | With fewer than 2^32 calls the 64-bit token sum cannot wrap |
| Agent.TokensConcat | Nodara-Agent/crates/nodara-agent/src/agent.rs:429-432 | Summing per attempt gives the sum over all calls, wrap-around included |
| Policy.StepLimitBinds | Nodara-Agent/crates/nodara-agent/src/policy.rs:72-81 | The step limit refuses the first charge past it exactly when it is below 2^32-1; at 2^32-1 the counter wraps and never refuses |
| Policy.BudgetTracker.ChargeStep | Nodara-Agent/crates/nodara-agent/src/policy.rs:72-81 | Counts first, then refuses past the limit or the deadline |
| Policy.BudgetTracker.ChargeTokens | Nodara-Agent/crates/nodara-agent/src/policy.rs:84-93 | Adds first, then refuses past the limit or the deadline |
| Policy.CheckTools | Nodara-Agent/crates/nodara-agent/src/policy.rs:152-189 | Passes exactly when nothing is held against any node; otherwise names the first offender and the one reason that applies to it |
| Policy.PermitsMeans | Nodara-Agent/crates/nodara-agent/src/policy.rs:152-189 | Permitted are the documents each of whose node types is on the allowlist, if there is one, and is not described, by the first descriptor of that type, as dangerous or as needing permissions where that is denied |
| UrlSegment.Segment | Nodara-Agent/crates/nodara-agent/src/runtime_client.rs:25-36 | The byte loop computes the encoding the lemmas below speak of |
| UrlSegment.BytesAreEncodedAlone | Nodara-Agent/crates/nodara-agent/src/runtime_client.rs:25-36 | Letters, digits, and `-`, `.`, `_` and `~` stand for themselves; every other byte becomes a percent sign and its two upper-case hexadecimal digits |
| UrlSegment.DecodeInvertsEncode | Nodara-Agent/crates/nodara-agent/src/runtime_client.rs:25-36 | Decoding gives the bytes back for every id |
| UrlSegment.EncodedIsInjective | Nodara-Agent/crates/nodara-agent/src/runtime_client.rs:20-36 | Two ids have the same encoding exactly when they are equal |
| UrlSegment.EncodedIsNormal | Nodara-Agent/crates/nodara-agent/src/runtime_client.rs:25-36 | Only unreserved characters and upper-case triplets of bytes that need one (sections 2.1 and 2.3 of RFC 3986) |
| UrlSegment.NormalIsEncoded | Nodara-Agent/crates/nodara-agent/src/runtime_client.rs:25-36 | Conversely, every string of that form is the encoding of some id |
| UrlSegment.NothingStructuralSurvives | Nodara-Agent/crates/nodara-agent/src/runtime_client.rs:20-24 | No slash, question mark or hash is left to retarget a request |
| EditorGraph.CycleProblems | Nodara-Studio/src/model/workflow.ts:283-312 | Nothing exactly when the edges with both ends declared, control and data, form no cycle; otherwise exactly the ids on or behind a cycle, once each, in declaration order |
| EditorGraph.Eliminate | Nodara-Studio/src/model/workflow.ts:297-306 | Kahn's elimination with a stack: all visited iff acyclic, positive in-degree iff on or behind a cycle |
| EditorGraph.BuildMaps | Nodara-Studio/src/model/workflow.ts:284-295 | Adjacency lists and in-degrees of the declared arcs, ids in insertion order |
| EditorGraph.CleanForTheEditorIsCleanForTheRuntime | Nodara-Studio/src/model/workflow.ts:277-282 | What passes the editor's check is acyclic for the runtime's scheduler, which accepts it exactly if no root id is declared twice and otherwise refuses it with an empty list |
| EditorGraph.TwinsAreRefused | Nodara-Studio/src/model/workflow.ts:283-312 | Two nodes with one id and no edges pass the editor's check and are refused |
| EditorGraph.EditorIsStricter | Nodara-Studio/src/model/workflow.ts:290-294 | Not conversely: a control edge and a data edge back are clean for the runtime and a cycle for the editor |
| Layout.AutoLayout | Nodara-Studio/src/ui/canvas.ts:568-630 | For every list of nodes and edges: the first declaration of each id is placed, later ones and everything but positions stay as they were, first declarations never overlap, columns are stacked from the top without gaps by the height at which the last declaration of each id stood, ties by declaration, columns are those of the levels. All 200x108 rectangles are apart exactly if the later declarations keep clear, so always with unique ids. If roots are unique, or the graph has no cycle and no id but the last one declared repeats, what no cycle leads to stands in its longest-path column and its edges go at least 290 to the right |
| Layout.AllApartIffLaterKeepClear | Nodara-Studio/src/ui/canvas.ts:622-628 | No two rectangles overlap exactly if each later declaration of an id already has a place, clear of every place given and of the other later ones |
| LayoutLaws.LaterDeclarationOverlaps | Nodara-Studio/src/ui/canvas.ts:622-628 | Two declarations of one id, the second standing where the first is put, end up on top of each other |
| LayoutLaws.RunsRightIffOnlyLastRepeats | Nodara-Studio/src/ui/canvas.ts:584-630 | On a list of nodes every acyclic set of edges is laid out from left to right if and only if no id is declared twice other than the one declared last, or there are at most three ids |
| LevelLaws.RisesIffOnlyLastRepeats | Nodara-Studio/src/ui/canvas.ts:584-602 | The same of the levelling loop: levels go up along every edge of every acyclic graph exactly then |
| LevelLaws.LevelsAreRight | Nodara-Studio/src/ui/canvas.ts:584-602 | With unique roots, or without cycles and without a repeated id but the last, every node no cycle leads to gets its longest incoming path |
| LevelLaws.ThreeIdsAreRight | Nodara-Studio/src/ui/canvas.ts:584-602 | With at most three ids every edge of an acyclic graph goes up, whatever repeats |
| LevelLaws.RepeatedIdMisleads | Nodara-Studio/src/ui/canvas.ts:584-602 | On any list of four ids or more with another id than the last repeated there is an acyclic graph whose levels put a node beside the one behind it |
| Levels.LevelsAreLongest | Nodara-Studio/src/ui/canvas.ts:590-602 | The level of an eliminated node is the length of its longest incoming path |
| Levels.LongestPaths | Nodara-Studio/src/ui/canvas.ts:584-602 | The levelling loop terminates on every input, with exactly the levels its queue drains to, on declared ids only |
| Levels.FillIn | Nodara-Studio/src/ui/canvas.ts:604-607 | Ids without a level get the levels right after the highest known one, or from 1 on, one each and without gaps; known ones stay |
| Layout.RowsIgnoreFillOrder | Nodara-Studio/src/ui/canvas.ts:609-621 | In whatever order the ids of a level were collected, the rows come out the same |
| Canvas.Editor.Arrange | Nodara-Studio/src/ui/canvas.ts:568-630 | The editor's nodes become the layout of what they were, with all the layout promises: rectangles apart exactly if later declarations keep clear, and edges running right by longest-path columns |
| Canvas.Reachable | Nodara-Studio/src/ui/canvas.ts:511-525 | The breadth-first closure is exactly the ids some control walk leads to, on any graph; it terminates on cycles |
| Canvas.ClosuresMeetOnWalks | Nodara-Studio/src/ui/canvas.ts:499-503 | Forward closure of the anchor and backward closure of the target meet exactly on the walks between them |
| Canvas.Editor.SelectPathTo | Nodara-Studio/src/ui/canvas.ts:493-509 | Selects exactly the nodes on some directed control walk from anchor to target; without a walk nothing changes; without an anchor just the target |
| Canvas.Editor.SetSelection | Nodara-Studio/src/ui/canvas.ts:437-450 | The selection as a set, no edge selected; the primary node is the given one if it is in it, else the first, else none |
| Canvas.EdgeExists | Nodara-Studio/src/model/workflow.ts:210-227 | Found exactly when some edge of the kind joins the two nodes: by the same ports, `out` and `in` where unnamed, if it is a data edge; by the branch the port names, or by any branch if it names none, if it is a control edge |
| Canvas.ConnectingKeepsWellConnected | Nodara-Studio/src/ui/canvas.ts:2030-2075 | A fresh id where nothing clashes keeps ids unique, adds no self-loop, and repeats no (source, target, branch) or (source, port, target, port) |
| Canvas.Editor.Connect | Nodara-Studio/src/ui/canvas.ts:2030-2075 | Which of the four verdicts is returned, exactly when; the one edge added, with its ports or the branch its port names; well-connectedness kept; nothing changes on refusal |
| Canvas.Editor.MismatchMeans | Nodara-Studio/src/ui/canvas.ts:2046-2060 | Types clash exactly if the first output port of that name, on the type of the first node under the source id, and the first input port on the other side have types that do not fit |
| Canvas.TypesThatFit | Nodara-Studio/src/model/workflow.ts:200-208 | Types fit exactly if they are equal, one of them is `any`, or they are `string` and `path` |
| Canvas.Editor.DeleteSelection | Nodara-Studio/src/ui/canvas.ts:992-1013 | Exactly the selected edge, or the selected nodes with the edges that touch them and their group memberships, is gone, the rest in order as it was, and the selection is empty; without a selection nothing changes |
| FreshIds.IdMint.NextNodeId | Nodara-Studio/src/model/workflow.ts:172-184 | Terminates with the first free candidate of the stem and the growing counter |
| FreshIds.IdMint.NextEdgeId | Nodara-Studio/src/model/workflow.ts:189-196 | Terminates with the first free candidate of the end points and the growing counter |
| FreshIds.StemsAreOfTheLastPart | Nodara-Studio/src/model/workflow.ts:172-178 | The stem is made from what follows the last dot of the type, and is `node` if there is nothing |
| FreshIds.StemsDropMarks | Nodara-Studio/src/model/workflow.ts:172-178 | Other characters than letters and digits do not count |
| FreshIds.StemsKeepLetters | Nodara-Studio/src/model/workflow.ts:172-178 | Letters and digits are kept in order, the letters in lower case |
| FreshIds.TakenAreFew | Nodara-Studio/src/model/workflow.ts:179-182 | Pigeonhole: no more candidates are taken than there are ids |
| Text.DecimalIsInjective | Nodara-Studio/src/model/workflow.ts:181 | Distinct counters render differently |
| Groups.GroupsStayDisciplined | Nodara-Studio/src/model/groups.ts:59-144 | Through every sequence of operations groups stay disjoint, non-empty, duplicate-free, unique by id and made of existing nodes |
| Groups.ApplyDisciplined | Nodara-Studio/src/model/groups.ts:59-144 | Each single operation keeps that discipline |
| Groups.RenameIsSafeIffNotSplit | Nodara-Studio/src/model/groups.ts:127-133 | Renaming a node keeps the discipline exactly when old and new id are not members of two different groups |
| Groups.FreshNamesNeverSplit | Nodara-Studio/src/ui/inspector.ts:661-671 | The inspector's guard against used ids ensures that |
| Groups.PruningDisciplined | Nodara-Studio/src/model/groups.ts:135-144 | Pruning after a deletion restores the discipline over the nodes left |
| Groups.CreationDisciplined | Nodara-Studio/src/model/groups.ts:59-79 | A new group takes its members from wherever they were |
| Groups.AssignmentDisciplined | Nodara-Studio/src/model/groups.ts:81-92 | Moving nodes keeps groups disjoint and drops those left empty |
| Groups.ReadAfterWrite | Nodara-Studio/src/model/groups.ts:21-57 | What is written is read back with members once each; other extensions are untouched; no empty extensions object is left |
| Groups.ReadIsTidy | Nodara-Studio/src/model/groups.ts:21-44 | Groups read from any document list each member once |
| Groups.StoredGroupsAreNamed | Nodara-Studio/src/model/groups.ts:21-35 | What is read as a group has a text `id` and `name`; its color is `color` or the default, its members the texts in `node_ids`, once each |
| GroupLaws.AssignmentIsExact | Nodara-Studio/src/model/groups.ts:81-92 | Afterwards the chosen nodes are members of the target and of nothing else, and all other memberships are as before; without the target nothing changes |
| GroupLaws.CreationIsExact | Nodara-Studio/src/model/groups.ts:59-79 | The new group gets exactly the existing nodes asked for, whom every other group loses, from any state |
| GroupLaws.RemovalAndPruningAreExact | Nodara-Studio/src/model/groups.ts:94-144 | Exactly the memberships of removed, or of missing, nodes end |
| GroupLaws.DeletionIsExact | Nodara-Studio/src/model/groups.ts:119-121 | Exactly the memberships in the deleted group end |
| GroupLaws.RenameIsExact | Nodara-Studio/src/model/groups.ts:127-133 | The renamed node keeps its groups under its new id; no other membership changes |
| GroupLaws.LabellingIsExact | Nodara-Studio/src/model/groups.ts:105-117 | One label of one group changes; blank names are ignored |
| GroupLaws.LabelsStay | Nodara-Studio/src/model/groups.ts:59-144 | No other operation changes an id, a name or a color; a created group has those asked for |
| Groups.GroupStore.Write | Nodara-Studio/src/model/groups.ts:46-57 | The groups read back are those written, tidied |
| Groups.GroupStore.CreateGroup | Nodara-Studio/src/model/groups.ts:59-79 | The new state is the creation's, under the first unused `group-N` |
| Groups.GroupStore.FreshNumber | Nodara-Studio/src/model/groups.ts:68-69 | Terminates with the first unused number |
| Groups.GroupStore.AssignNodes | Nodara-Studio/src/model/groups.ts:81-92 | The new state is the assignment's; unchanged if there is no such group |
| Groups.GroupStore.RemoveNodes | Nodara-Studio/src/model/groups.ts:94-103 | The new state is the removal's |
| Groups.GroupStore.RenameGroup | Nodara-Studio/src/model/groups.ts:105-110 | The new state is the renaming's; a blank name is ignored |
| Groups.GroupStore.Recolor | Nodara-Studio/src/model/groups.ts:112-117 | The new state is the recolouring's |
| Groups.GroupStore.DeleteGroup | Nodara-Studio/src/model/groups.ts:119-121 | The new state is the deletion's |
| Groups.GroupStore.RenameOneNode | Nodara-Studio/src/model/groups.ts:127-133 | The new state is the node renaming's, guarded by the inspector |
| Groups.GroupStore.Prune | Nodara-Studio/src/model/groups.ts:135-144 | Memberships of missing nodes, and groups they leave empty, are gone |
| Groups.GroupStore.DeleteNodesAndPrune | Nodara-Studio/src/ui/canvas.ts:1003-1008 | The new state is the node deletion's |

## Left out

- Guards, JSON rendering and float parsing are abstract functions; JSON text is an algebraic value, and object member order matters only to `firstOutput`, the first output port, which is abstract.
- Document validation is one flag supplied by the caller; approval, policy and executors are scripts, not code.
- Engine.WorkflowRun.AwaitPermission: models the waits that return; a waiter that is never released is the subject of `RunControl` instead.
- Engine.Run: for a node whose `retry` is 2^32-1 it requires that the executor script does not fail for ever, because the loop does not end otherwise.
- Engine.WorkflowRun.Abort: returns the seeded scope unmasked, as the code does; masking is stated for the template functions and the event stream.
- The branch of the engine that maps a cancelled authorisation to a cancelled run is unreachable: authorisation only fails with a denial.
- NodeStarted and NodeFinished also carry inputs and outputs; masking is not claimed for those, since the code copies them unredacted.
- Wall-clock durations, timestamps, generated run ids, the fraction of progress events, log texts beyond the ones quoted, and audit records written by the engine itself.
- The artifact store, and which capabilities a descriptor lists, beyond what authorisation reads.
- Audit.NumbersStayUnique: assumes lines once written survive a crash and fewer than 2^64 numbers are handed out; the text of a record is abstract, and a torn line with more bytes after it never reads as a record.
- Audit.BlindReopenIsSafeIffNothingIsWritten: is stated for files whose numbers leave the counter room, the largest below 2^64-1, and for later interleavings that do not wrap it.
- GateLaws.StartsAreCleared: consent is that of the script or approver for the node's type; which permissions a policy would look at is part of the script.
- Agent: prompts, conversation history, run evidence, report contents and the polling loop inside `wait_for_run`, whose result is an arbitrary answer; writing a status is a request whose success the code ignores.
- Agent.Converse: the bound by `max_steps` is stated when `max_steps` is below 2^32-1 or 3*(max_repairs+1) is below 2^32, because otherwise the step counter may wrap.
- Tool selection, observation findings and draft extraction are abstract functions; HTTP, server-sent events and credentials are left to the environment.
- Layout.AutoLayout: positions are real numbers, not floating point; where roots repeat and the graph has cycles, no condition is given under which the levels of what no cycle leads to are longest paths.
- FreshIds: counters are unbounded; JavaScript numbers stop counting exactly at 2^53.
- Canvas.Editor.Connect: does not require its end points to exist, as the code does not.
- Group colours, names beyond the blank-name rule, bounding boxes and visuals; trimming in the editor is an abstract function.
- Rendering, dialogs, history, diffing, import and migration of documents, the extension registry and the command line.
