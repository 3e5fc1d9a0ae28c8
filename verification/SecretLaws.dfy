// What the published stream shows of secret variables.
module SecretLaws {
  import opened Digraph
  import opened Workflow
  import opened Events
  import opened RunTrace
  import opened RunSteps
  import opened RunLaws
  import CancelLaws
  import Engine
  import Json
  import NodeLaws
  import Retry
  import Template
  import TemplateLaws

  /** What an event shows of a scope: the redacted scope, and for a start the configuration resolved in it. */
  ghost predicate ShowsThrough(plan: Plan, e: Event, s: Json.Scope) {
    match e
    case NodeStarted(_, kind, config, resolved, _, shown, _) =>
      shown == plan.redact(s) && kind in plan.registry && resolved == plan.resolve(s, config, plan.registry[kind].configSchema)
    case NodeFinished(_, _, shown) => shown == plan.redact(s)
    case NodeFailed(_, _, _, _, shown) => shown == plan.redact(s)
    case _ => true
  }

  lemma FailureShowsThrough(plan: Plan, m: Monitor, e: Event)
    requires e.NodeFailed? && !OnFailed(plan, m, e).phase.Rejected?
    ensures e.variablesAfter == plan.redact(OnFailed(plan, m, e).scope)
  {
    hide ConditionHolds, ConditionError, LastError, FailureEvent, Retry.KeepsRetrying;
    FailureEventShows(plan);
    match m.phase
    case At(_, _) =>
    case Denied(_, _) =>
    case Window(_, _, _, _) =>
    case _ =>
  }

  lemma FailureEventShows(plan: Plan)
    ensures forall n, error, scope ::
      FailureEvent(plan, n, error, scope).NodeFailed? && FailureEvent(plan, n, error, scope).variablesAfter == plan.redact(scope)
  {
  }

  lemma FinishShowsThrough(plan: Plan, m: Monitor, e: Event)
    requires e.NodeFinished? && !OnFinished(plan, m, e).phase.Rejected?
    ensures e.variablesAfter == plan.redact(OnFinished(plan, m, e).scope)
  {
    hide Publish;
  }

  lemma StartShowsThrough(plan: Plan, m: Monitor, e: Event)
    requires e.NodeStarted? && !OnStarted(plan, m, e).phase.Rejected?
    ensures ShowsThrough(plan, e, OnStarted(plan, m, e).scope)
  {
    hide ConditionHolds, Inflow, FoldInputs;
  }

  lemma EventShowsThrough(plan: Plan, m: Monitor, e: Event, c: bool)
    requires !OnEvent(plan, m, e, c).phase.Rejected?
    ensures ShowsThrough(plan, e, OnEvent(plan, m, e, c).scope)
  {
    hide OnTerminal, OnStarted, OnFinished, OnFailed, OnActivated, OnTransferred, OnPaused;
    match e
    case NodeStarted(_, _, _, _, _, _, _) => StartShowsThrough(plan, m, e);
    case NodeFinished(_, _, _) => FinishShowsThrough(plan, m, e);
    case NodeFailed(_, _, _, _, _) => FailureShowsThrough(plan, m, e);
    case _ =>
  }

  /** The document declares the variable secret. */
  predicate IsSecret(doc: Document, name: string) {
    name in doc.variables && doc.variables[name].secret
  }

  /** What is shown of a scope: every variable, those declared secret as three stars, the others as they are. */
  ghost predicate ShowsScope(doc: Document, shown: Json.Scope, s: Json.Scope) {
    && shown.Keys == s.Keys
    && forall n :: n in s ==> shown[n] == if IsSecret(doc, n) then Json.Str("***") else s[n]
  }

  ghost predicate ShowsMasked(doc: Document, e: Event, s: Json.Scope) {
    match e
    case NodeStarted(_, _, _, _, _, shown, _) => ShowsScope(doc, shown, s)
    case NodeFinished(_, _, shown) => ShowsScope(doc, shown, s)
    case NodeFailed(_, _, _, _, shown) => ShowsScope(doc, shown, s)
    case _ => true
  }

  /** A dotted name leads somewhere in the scope. */
  predicate Resolves(s: Json.Scope, codec: Template.Codec, name: string) {
    Template.LookupValue(Template.View(s, {}, codec), name).Some?
  }

  /** The scopes differ at most in the values of secret variables, and the same dotted names lead somewhere. */
  ghost predicate DifferInSecrets(request: Engine.Request, s: Json.Scope, t: Json.Scope) {
    && s.Keys == t.Keys
    && (forall n :: n in s && !IsSecret(request.doc, n) ==> s[n] == t[n])
    && (forall name :: TemplateLaws.Observable(name) ==> (Resolves(s, request.codec, name) <==> Resolves(t, request.codec, name)))
  }

  lemma SecretsDoNotResolve(s: Json.Scope, secrets: set<string>, codec: Template.Codec, name: string)
    ensures Template.LookupValue(Template.View(s, secrets, codec), name).Some? <==> Resolves(s, codec, name)
  {
  }

  lemma DifferenceIsLow(request: Engine.Request, s: Json.Scope, t: Json.Scope)
    requires DifferInSecrets(request, s, t)
    ensures
      var secrets := Engine.Secrets(request.doc);
      TemplateLaws.LowEquivalent(Template.View(s, secrets, request.codec), Template.View(t, secrets, request.codec))
  {
    var secrets, codec := Engine.Secrets(request.doc), request.codec;
    var a, b := Template.View(s, secrets, codec), Template.View(t, secrets, codec);
    assert forall n :: n in secrets <==> IsSecret(request.doc, n);
    forall name | TemplateLaws.Observable(name)
      ensures Template.LookupValue(a, name).Some? <==> Template.LookupValue(b, name).Some?
    {
      SecretsDoNotResolve(s, secrets, codec, name);
      SecretsDoNotResolve(t, secrets, codec, name);
    }
  }

  /** The event is what any scope that differs from `s` only in the values of secrets would show. */
  ghost predicate SameForAll(request: Engine.Request, plan: Plan, e: Event, s: Json.Scope) {
    forall t :: DifferInSecrets(request, s, t) ==> ShowsThrough(plan, e, t)
  }

  lemma RedactionShows(request: Engine.Request, entry: Id, s: Json.Scope)
    ensures ShowsScope(request.doc, Engine.PlanOf(request, entry).redact(s), s)
  {
  }

  lemma ShownIsMasked(request: Engine.Request, entry: Id, e: Event, s: Json.Scope)
    requires ShowsThrough(Engine.PlanOf(request, entry), e, s)
    ensures ShowsMasked(request.doc, e, s)
  {
    hide Engine.PlanOf, ShowsScope;
    RedactionShows(request, entry, s);
  }

  lemma ResolutionIsBlind(request: Engine.Request, entry: Id, e: Event, s: Json.Scope, t: Json.Scope)
    requires ShowsThrough(Engine.PlanOf(request, entry), e, s) && DifferInSecrets(request, s, t)
    ensures ShowsThrough(Engine.PlanOf(request, entry), e, t)
  {
    hide Template.ResolveConfig, TemplateLaws.LowEquivalent, DifferInSecrets;
    DifferenceIsLow(request, s, t);
    var secrets := Engine.Secrets(request.doc);
    var a, b := Template.View(s, secrets, request.codec), Template.View(t, secrets, request.codec);
    TemplateLaws.RedactedBlind(a, b);
    if e.NodeStarted? {
      var schema := Engine.PlanOf(request, entry).registry[e.nodeType].configSchema;
      TemplateLaws.ResolveConfigBlind(a, b, e.config, Some(schema));
    }
  }

  /** What is shown at a step is the scope as it stands there. */
  lemma StepShows(plan: Plan, scope: Json.Scope, trace: seq<Entry>, i: nat)
    requires Accepted(plan, scope, trace) && i < |trace| && trace[i].step.Emit?
    ensures ShowsThrough(plan, trace[i].step.event, Replay(plan, scope, trace[..i + 1]).scope)
  {
    hide Observe, OnEvent, ShowsThrough;
    AcceptedUpTo(plan, scope, trace, i + 1);
    assert trace[..i + 1][..i] == trace[..i];
    var m, e := Replay(plan, scope, trace[..i]), trace[i].step.event;
    EventObserved(plan, m, e, trace[i].cancelled);
    EventShowsThrough(plan, m, e, trace[i].cancelled);
  }

  /**
   * The stream of a run shows exactly the variables the document declares secret as three stars, and the
   * others with their own values; and what it shows of the run's scope, as it stands at that step, is what
   * it would show whatever the values of the secrets were.
   */
  lemma StreamKeepsSecrets(request: Engine.Request, entry: Id, scope: Json.Scope, trace: seq<Entry>, i: nat)
    requires Accepted(Engine.PlanOf(request, entry), scope, trace) && i < |trace| && trace[i].step.Emit?
    ensures
      var plan := Engine.PlanOf(request, entry);
      var s := Replay(plan, scope, trace[..i + 1]).scope;
      ShowsMasked(request.doc, trace[i].step.event, s) && SameForAll(request, plan, trace[i].step.event, s)
  {
    hide Replay, Accepted, ShowsThrough, ShowsMasked, DifferInSecrets, Engine.PlanOf;
    var plan, e := Engine.PlanOf(request, entry), trace[i].step.event;
    var s := Replay(plan, scope, trace[..i + 1]).scope;
    StepShows(plan, scope, trace, i);
    ShownIsMasked(request, entry, e, s);
    forall t | DifferInSecrets(request, s, t) ensures ShowsThrough(plan, e, t) {
      ResolutionIsBlind(request, entry, e, s, t);
    }
  }

  /** A start resolves the node's configuration in the scope of the moment, secrets masked, by the type's schema. */
  lemma StartsResolve(request: Engine.Request, entry: Id, scope: Json.Scope, trace: seq<Entry>, i: nat)
    requires Accepted(Engine.PlanOf(request, entry), scope, trace) && i < |trace|
    requires trace[i].step.Emit? && trace[i].step.event.NodeStarted?
    ensures
      var e, s := trace[i].step.event, Replay(Engine.PlanOf(request, entry), scope, trace[..i + 1]).scope;
      var secrets := set n | n in request.doc.variables && request.doc.variables[n].secret;
      && e.nodeType in request.registry
      && e.resolvedConfig == Template.ResolveConfig(Template.View(s, secrets, request.codec), e.config,
                                                    Some(request.registry[e.nodeType].configSchema))
  {
    hide Replay, Accepted, Template.ResolveConfig;
    StepShows(Engine.PlanOf(request, entry), scope, trace, i);
  }

  // ------------------------------------------------------------ the outcome

  lemma BegunIsNotInitial(plan: Plan, m: Monitor, entry: Entry)
    requires !Observe(plan, m, entry).phase.Rejected?
    ensures !Observe(plan, m, entry).phase.Initial?
  {
    hide Observe;
    if entry.step.Emit? {
      hide OnEvent;
      EventObserved(plan, m, entry.step.event, entry.cancelled);
      EventBegins(plan, m, entry.step.event, entry.cancelled);
    } else if ClearsTheWay(entry.step) {
      ClearanceOnly(plan, m, entry);
      ClearanceBegun(plan, m, entry);
    } else if Works(entry.step) {
      WorkOnly(plan, m, entry);
    } else {
      VisitOnly(plan, m, entry);
    }
  }

  lemma ClearanceBegun(plan: Plan, m: Monitor, entry: Entry)
    requires ClearsTheWay(entry.step) && !Observe(plan, m, entry).phase.Rejected?
    ensures !m.phase.Initial?
  {
    hide OnEvent, OnVisit, OnRoute, OnCall, OnReturn, OnLeave, OnSkip, OnDeny, ConditionHolds, PastBreakpoint;
  }

  lemma EventBegins(plan: Plan, m: Monitor, e: Event, c: bool)
    requires !OnEvent(plan, m, e, c).phase.Rejected?
    ensures !OnEvent(plan, m, e, c).phase.Initial?
  {
    hide OnTerminal, OnStarted, OnFinished, OnFailed, OnTransferred, OnPaused;
    match e
    case NodeStarted(_, _, _, _, _, _, _) => StartShape(plan, m, e);
    case NodeFinished(_, _, _) => FinishShape(plan, m, e);
    case DataTransferred(_, _, _, _, _, _) => TransferShape(plan, m, e);
    case RunPaused => PauseShape(plan, m);
    case NodeFailed(_, _, _, _, _) => CancelLaws.FailureLeaves(plan, m, e);
    case RunCancelled(_) => NodeLaws.TerminalStaged(plan, m, e, c);
    case RunCompleted(_) => NodeLaws.TerminalStaged(plan, m, e, c);
    case RunFailed(_, _) => NodeLaws.TerminalStaged(plan, m, e, c);
    case _ =>
  }

  /** Once anything has happened, a run is under way. */
  lemma Begun(plan: Plan, scope: Json.Scope, trace: seq<Entry>)
    requires Accepted(plan, scope, trace) && trace != []
    ensures !Replay(plan, scope, trace).phase.Initial?
  {
    hide Observe;
    BegunIsNotInitial(plan, Replay(plan, scope, trace[..|trace| - 1]), trace[|trace| - 1]);
  }
}
